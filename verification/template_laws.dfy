/** What templates, values and paths look like, byte by byte. */
module TemplateLaws {
  import opened Wrappers
  import opened Unicode
  import opened UrlTemplates
  import opened UrlRendering

  // ----- Templates -----

  ghost predicate IsHexByte(b: byte) {
    0x30 <= b <= 0x39 || 0x41 <= b <= 0x46 || 0x61 <= b <= 0x66
  }

  /** A '%' at position `i` that two hex digits do not follow. */
  ghost predicate LonePercent(s: Text, i: nat) {
    i < |s| && s[i] == 0x25 && !(i + 2 < |s| && IsHexByte(s[i + 1]) && IsHexByte(s[i + 2]))
  }

  /** A literal is not empty, not "." nor "..", free of '/', '?', '#' and braces, with every '%' a triplet. */
  ghost predicate LiteralText(s: Text) {
    && s != [] && s != [0x2E] && s != [0x2E, 0x2E]
    && (forall b | b in s :: b != 0x2F && b != 0x3F && b != 0x23 && b != 0x7B && b != 0x7D)
    && forall i: nat :: !LonePercent(s, i)
  }

  /** A placeholder's name is made of ASCII letters, digits and '_'. */
  ghost predicate NameText(s: Text) {
    s != [] && forall b | b in s :: 0x41 <= b <= 0x5A || 0x61 <= b <= 0x7A || 0x30 <= b <= 0x39 || b == 0x5F
  }

  lemma HexReads(b: byte)
    ensures IsHex(b) <==> IsHexByte(b)
  {
  }

  lemma PercentsRead(s: Text)
    ensures PercentEncoded(s) <==> forall i: nat :: !LonePercent(s, i)
  {
    if forall i: nat :: !LonePercent(s, i) {
      forall i | 0 <= i < |s| && s[i] == PERCENT ensures i + 2 < |s| && IsHex(s[i + 1]) && IsHex(s[i + 2]) {
        assert !LonePercent(s, i);
        HexReads(s[i + 1]);
        HexReads(s[i + 2]);
      }
    }
  }

  /** The segments of templates, and how they are written. */
  lemma SegmentsRead(seg: Segment)
    ensures GoodSegment(seg) <==> if seg.Literal? then LiteralText(seg.text) else NameText(seg.name)
    ensures Show(seg) == if seg.Literal? then seg.text else [0x7B] + seg.name + [0x7D]
  {
    if seg.Literal? {
      PercentsRead(seg.text);
    }
  }

  ghost predicate Braced(raw: Text) {
    |raw| >= 2 && raw[0] == 0x7B && raw[|raw| - 1] == 0x7D && NameText(raw[1..|raw| - 1])
  }

  /** Why a segment is refused: half a placeholder, a dot segment, or a '%' that starts no triplet, in this order. */
  lemma SegmentRefusalsRead(raw: Text)
    ensures ParseSegment(raw) ==
      if 0x7B in raw || 0x7D in raw
      then if Braced(raw) then Ok(Placeholder(raw[1..|raw| - 1])) else Err(MixedSegment(raw))
      else if raw == [0x2E] || raw == [0x2E, 0x2E] then Err(DotSegment(raw))
      else if exists i: nat :: LonePercent(raw, i) then Err(MalformedPercentEncoding(raw))
      else Ok(Literal(raw))
  {
    PercentsRead(raw);
  }

  ghost predicate SchemeAt(t: Text, i: nat) {
    i + 3 <= |t| && t[i] == 0x3A && t[i + 1] == 0x2F && t[i + 2] == 0x2F
  }

  /** Why a whole template is refused before its segments are looked at, in this order. */
  lemma TemplateRefusalsRead(t: Text)
    ensures ParseTemplate(t) ==
      if t == [] || t[0] != 0x2F then Err(NotAbsolute(t))
      else if |t| >= 2 && t[1] == 0x2F then Err(DoubleSlashStart(t))
      else if 0x3F in t || 0x23 in t then Err(ContainsQueryOrFragment(t))
      else if exists i: nat :: SchemeAt(t, i) then Err(ContainsSchemeSeparator(t))
      else if t == [0x2F] then Ok([])
      else ParseParts(Split(t[1..]), |Split(t[1..])|)
  {
    if i: nat :| SchemeAt(t, i) {
      assert t[i..][..3] == [COLON, SLASH, SLASH];
      assert OccursAt(t, [COLON, SLASH, SLASH], i);
    }
    if i: nat :| i <= |t| && OccursAt(t, [COLON, SLASH, SLASH], i) {
      assert t[i..][..3] == [COLON, SLASH, SLASH];
      assert t[i..][0] == COLON && t[i..][1] == SLASH && t[i..][2] == SLASH;
      assert SchemeAt(t, i);
    }
  }

  // ----- Encoding -----

  ghost function UpperHex(n: nat): byte
    requires n < 16
  {
    if n < 10 then 0x30 + n else 0x41 + (n - 10)
  }

  /** Letters, digits and "-._~" stand for themselves (section 2.3 of RFC 3986); any other byte becomes a triplet. */
  lemma EncodedByteReads(b: byte)
    ensures Encode([b]) ==
      if 0x41 <= b <= 0x5A || 0x61 <= b <= 0x7A || 0x30 <= b <= 0x39 || b == 0x2D || b == 0x2E || b == 0x5F || b == 0x7E
      then [b] else [0x25, UpperHex(b / 16), UpperHex(b % 16)]
  {
    assert Encode([b]) == EncodeByte(b) + Encode([b][1..]);
    assert [b][1..] == [];
  }

  /** Each byte is encoded by itself, wherever it stands. */
  lemma {:induction false} EncodingConcatenates(a: Text, b: Text)
    ensures Encode(a + b) == Encode(a) + Encode(b)
  {
    if a == [] {
      assert a + b == b;
    } else {
      assert (a + b)[1..] == a[1..] + b;
      EncodingConcatenates(a[1..], b);
    }
  }

  // ----- Values -----

  /** A C0 control, DEL, or the UTF-8 form of a C1 control. */
  ghost predicate ControlBytes(s: Text, i: nat) {
    i < |s| &&
    (s[i] <= 0x1F || s[i] == 0x7F || (s[i] == 0xC2 && i + 1 < |s| && 0x80 <= s[i + 1] <= 0x9F))
  }

  ghost predicate Accepted(value: Text) {
    value != [] && value != [0x2E] && value != [0x2E, 0x2E] && forall i: nat :: !ControlBytes(value, i)
  }

  ghost predicate Filled(seg: Segment, values: map<Text, Text>) {
    seg.Placeholder? ==> seg.name in values && Accepted(values[seg.name])
  }

  lemma FilledIsRenderable(seg: Segment, values: map<Text, Text>)
    ensures Renderable(seg, values) <==> Filled(seg, values)
  {
    if seg.Placeholder? && seg.name in values {
      var value := values[seg.name];
      assert HasControl(value) <==> exists i: nat :: ControlBytes(value, i) by {
        if i: nat :| ControlBytes(value, i) {
          assert ControlAt(value, i);
        }
        if i: nat :| i < |value| && ControlAt(value, i) {
          assert ControlBytes(value, i);
        }
      }
    }
  }

  ghost function Refusal(name: Text, values: map<Text, Text>): TemplateError {
    if name !in values then MissingValue(name)
    else if values[name] == [] then EmptyValue(name)
    else if values[name] == [0x2E] || values[name] == [0x2E, 0x2E] then DotValue(name)
    else ControlCharacter(name)
  }

  lemma {:induction false} FirstUnfilledDecides(segs: seq<Segment>, values: map<Text, Text>, k: nat)
    returns (i: nat)
    requires k <= |segs| && RenderTo(segs, values, k).Err?
    ensures i < k && segs[i].Placeholder? && !Filled(segs[i], values)
    ensures forall j | 0 <= j < i :: Filled(segs[j], values)
    ensures RenderTo(segs, values, k) == Err(Refusal(segs[i].name, values))
  {
    if RenderTo(segs, values, k - 1).Err? {
      i := FirstUnfilledDecides(segs, values, k - 1);
    } else {
      i := k - 1;
      RenderMeaning(segs, values, k - 1);
      forall j | 0 <= j < k ensures Renderable(segs[j], values) <==> Filled(segs[j], values) {
        FilledIsRenderable(segs[j], values);
      }
      OneMoreRendered(segs, values, k);
    }
  }

  /**
   A template renders exactly when every placeholder has an acceptable value; otherwise the first placeholder
   without one decides the error.
   */
  lemma RendersExactlyWhenFilled(segs: seq<Segment>, values: map<Text, Text>)
    ensures RenderPath(segs, values).Ok? <==> forall i | 0 <= i < |segs| :: Filled(segs[i], values)
    ensures RenderPath(segs, values).Err? ==>
      exists i :: 0 <= i < |segs| && segs[i].Placeholder? && !Filled(segs[i], values)
                  && (forall j | 0 <= j < i :: Filled(segs[j], values))
                  && RenderPath(segs, values) == Err(Refusal(segs[i].name, values))
  {
    RenderSucceedsExactlyWhen(segs, values);
    forall i | 0 <= i < |segs| ensures Renderable(segs[i], values) <==> Filled(segs[i], values) {
      FilledIsRenderable(segs[i], values);
    }
    if RenderPath(segs, values).Err? {
      var i := FirstUnfilledDecides(segs, values, |segs|);
    }
  }
}
