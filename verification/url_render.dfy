/**
 Rendering a path template: each placeholder's value is percent-encoded down to unreserved bytes,
 so a value can never leave its own segment.
 */
module UrlRendering {
  import opened Wrappers
  import opened Unicode
  import opened UrlTemplates

  // ----- Percent-encoding -----

  /** Section 2.3 of RFC 3986. */
  predicate Unreserved(b: byte) {
    IsAlphanumeric(b) || b == 0x2D || b == DOT || b == UNDERSCORE || b == 0x7E
  }

  function HexDigit(n: nat): (b: byte)
    requires n < 16
    ensures IsHex(b) && HexValue(b) == n
  {
    if n < 10 then 0x30 + n else 0x41 + n - 10
  }

  function HexValue(b: byte): (n: nat)
    requires IsHex(b)
    ensures n < 16
  {
    if b <= 0x39 then b - 0x30 else if b <= 0x46 then b - 0x41 + 10 else b - 0x61 + 10
  }

  function EncodeByte(b: byte): Text {
    if Unreserved(b) then [b] else [PERCENT, HexDigit(b / 16), HexDigit(b % 16)]
  }

  function Encode(value: Text): Text {
    if value == [] then [] else EncodeByte(value[0]) + Encode(value[1..])
  }

  /** Section 2.1 of RFC 3986; a '%' that starts no triplet stands for itself. */
  function Decode(s: Text): Text {
    if s == [] then []
    else if |s| >= 3 && s[0] == PERCENT && IsHex(s[1]) && IsHex(s[2])
    then [16 * HexValue(s[1]) + HexValue(s[2])] + Decode(s[3..])
    else [s[0]] + Decode(s[1..])
  }

  lemma {:induction false} DecodeOfEncode(value: Text)
    ensures Decode(Encode(value)) == value
  {
    if value != [] {
      DecodeOfEncode(value[1..]);
      var first := EncodeByte(value[0]);
      var s := Encode(value);
      assert s[|first|..] == Encode(value[1..]);
      assert value == [value[0]] + value[1..];
    }
  }

  /** Encoded text holds nothing but unreserved bytes and triplets. */
  lemma {:induction false} EncodedBytes(value: Text)
    ensures forall b | b in Encode(value) :: Unreserved(b) || b == PERCENT
  {
    if value != [] {
      EncodedBytes(value[1..]);
    }
  }

  lemma EncodedPart(value: Text)
    requires value != [] && !IsDots(value)
    ensures Encode(value) != [] && SLASH !in Encode(value) && PathOnly(Encode(value)) && !IsDots(Encode(value))
  {
    EncodedBytes(value);
    DecodeOfEncode(value);
    assert Decode([DOT]) == [DOT] + Decode([]);
    assert [DOT, DOT][1..] == [DOT];
    assert Decode([DOT, DOT]) == [DOT] + Decode([DOT]);
  }

  // ----- Values -----

  /** C0 and C1 controls in UTF-8: a C1 control is 0xC2 followed by 0x80 to 0x9F. */
  predicate ControlAt(s: Text, i: nat)
    requires i < |s|
  {
    s[i] < 0x20 || s[i] == 0x7F || (s[i] == 0xC2 && i + 1 < |s| && 0x80 <= s[i + 1] <= 0x9F)
  }

  predicate HasControl(s: Text) {
    exists i | 0 <= i < |s| :: ControlAt(s, i)
  }

  function ValidateValue(name: Text, value: Text): Option<TemplateError> {
    if value == [] then Some(EmptyValue(name))
    else if IsDots(value) then Some(DotValue(name))
    else if HasControl(value) then Some(ControlCharacter(name))
    else None
  }

  predicate IsControlChar(c: char) {
    c as int <= 0x1F || c as int == 0x7F || 0x80 <= c as int <= 0x9F
  }

  /** On well-formed UTF-8, looking for control bytes is looking for control characters. */
  lemma {:induction false} ControlBytesAreControlCharacters(cs: string)
    ensures HasControl(Utf8All(cs)) <==> exists i :: 0 <= i < |cs| && IsControlChar(cs[i])
  {
    if cs != [] {
      var first, rest := Utf8(cs[0]), Utf8All(cs[1..]);
      ControlBytesAreControlCharacters(cs[1..]);
      assert Utf8All(cs) == first + rest;
      forall i | 0 <= i < |first| ensures ControlAt(first + rest, i) <==> i == 0 && IsControlChar(cs[0]) {
      }
      forall i | 0 <= i < |rest| ensures ControlAt(first + rest, |first| + i) <==> ControlAt(rest, i) {
      }
      FirstOrRest(first, rest);
      FirstOrRestIsControl(cs);
    }
  }

  lemma FirstOrRestIsControl(cs: string)
    requires cs != []
    ensures (exists i :: 0 <= i < |cs| && IsControlChar(cs[i])) <==>
            IsControlChar(cs[0]) || exists i :: 0 <= i < |cs[1..]| && IsControlChar(cs[1..][i])
  {
    if i :| 0 < i < |cs| && IsControlChar(cs[i]) {
      assert cs[1..][i - 1] == cs[i];
    }
  }

  lemma FirstOrRest(first: Text, rest: Text)
    requires first != [] && forall i | 0 < i < |first| :: !ControlAt(first + rest, i)
    requires forall i | 0 <= i < |rest| :: ControlAt(first + rest, |first| + i) <==> ControlAt(rest, i)
    ensures HasControl(first + rest) <==> ControlAt(first + rest, 0) || HasControl(rest)
  {
    if i :| |first| <= i < |first + rest| && ControlAt(first + rest, i) {
      assert ControlAt(rest, i - |first|);
    }
    if i :| 0 <= i < |rest| && ControlAt(rest, i) {
      assert ControlAt(first + rest, |first| + i);
    }
  }

  // ----- Rendering -----

  function RenderSegment(seg: Segment, values: map<Text, Text>): Result<Text, TemplateError> {
    match seg
    case Literal(text) => Ok(text)
    case Placeholder(name) =>
      if name !in values then Err(MissingValue(name)) else
      var problem := ValidateValue(name, values[name]);
      if problem.Some? then Err(problem.value) else Ok(Encode(values[name]))
  }

  /** The path after the first `k` segments, or the first error met. */
  function RenderTo(segs: seq<Segment>, values: map<Text, Text>, k: nat): Result<Text, TemplateError>
    requires k <= |segs|
  {
    if k == 0 then Ok([]) else
    var before := RenderTo(segs, values, k - 1);
    if before.Err? then before else
    var part := RenderSegment(segs[k - 1], values);
    if part.Err? then part else Ok(before.value + [SLASH] + part.value)
  }

  function RenderPath(segs: seq<Segment>, values: map<Text, Text>): Result<Text, TemplateError> {
    if segs == [] then Ok([SLASH]) else RenderTo(segs, values, |segs|)
  }

  lemma {:induction false} RenderErrorsStick(segs: seq<Segment>, values: map<Text, Text>, j: nat, k: nat)
    requires j <= k <= |segs| && RenderTo(segs, values, j).Err?
    ensures RenderTo(segs, values, k) == RenderTo(segs, values, j)
  {
    if j < k {
      RenderErrorsStick(segs, values, j, k - 1);
    }
  }

  method Render(segs: seq<Segment>, values: map<Text, Text>) returns (r: Result<Text, TemplateError>)
    ensures r == RenderPath(segs, values)
  {
    if segs == [] {
      return Ok([SLASH]);
    }
    var out: Text := [];
    for k := 0 to |segs|
      invariant RenderTo(segs, values, k) == Ok(out)
    {
      out := out + [SLASH];
      match segs[k] {
        case Literal(text) =>
          out := out + text;
        case Placeholder(name) =>
          if name !in values {
            RenderErrorsStick(segs, values, k + 1, |segs|);
            return Err(MissingValue(name));
          }
          var problem := ValidateValue(name, values[name]);
          if problem.Some? {
            RenderErrorsStick(segs, values, k + 1, |segs|);
            return Err(problem.value);
          }
          out := out + Encode(values[name]);
      }
    }
    r := Ok(out);
  }

  // ----- What rendering guarantees -----

  ghost predicate Renderable(seg: Segment, values: map<Text, Text>) {
    seg.Placeholder? ==>
      && seg.name in values && values[seg.name] != [] && !IsDots(values[seg.name]) && !HasControl(values[seg.name])
  }

  ghost predicate AllRenderable(segs: seq<Segment>, values: map<Text, Text>, k: nat)
    requires k <= |segs|
  {
    forall i | 0 <= i < k :: Renderable(segs[i], values)
  }

  ghost function Rendered(seg: Segment, values: map<Text, Text>): Text
    requires Renderable(seg, values)
  {
    if seg.Literal? then seg.text else Encode(values[seg.name])
  }

  ghost function RenderedParts(segs: seq<Segment>, values: map<Text, Text>, k: nat): (parts: seq<Text>)
    requires k <= |segs| && AllRenderable(segs, values, k)
    ensures |parts| == k && forall i | 0 <= i < k :: parts[i] == Rendered(segs[i], values)
  {
    if k == 0 then [] else RenderedParts(segs, values, k - 1) + [Rendered(segs[k - 1], values)]
  }

  lemma {:induction false} JoinAppend(parts: seq<Text>, p: Text)
    ensures Join(parts + [p]) == Join(parts) + [SLASH] + p
  {
    if parts == [] {
      assert [p][1..] == [];
      assert Join([p]) == [SLASH] + p + Join([]);
    } else {
      JoinAppend(parts[1..], p);
      assert (parts + [p])[1..] == parts[1..] + [p];
    }
  }

  lemma OneMoreRendered(segs: seq<Segment>, values: map<Text, Text>, k: nat)
    requires 0 < k <= |segs|
    ensures var before, seg := RenderTo(segs, values, k - 1), segs[k - 1];
      if before.Ok? && Renderable(seg, values)
      then RenderTo(segs, values, k) == Ok(before.value + [SLASH] + Rendered(seg, values))
      else RenderTo(segs, values, k).Err?
  {
  }

  lemma {:induction false} RenderMeaning(segs: seq<Segment>, values: map<Text, Text>, k: nat)
    requires k <= |segs|
    ensures RenderTo(segs, values, k).Ok? <==> AllRenderable(segs, values, k)
    ensures AllRenderable(segs, values, k) ==> RenderTo(segs, values, k) == Ok(Join(RenderedParts(segs, values, k)))
  {
    if k > 0 {
      RenderMeaning(segs, values, k - 1);
      OneMoreRendered(segs, values, k);
      assert AllRenderable(segs, values, k) <==> AllRenderable(segs, values, k - 1) && Renderable(segs[k - 1], values);
      if AllRenderable(segs, values, k) {
        JoinAppend(RenderedParts(segs, values, k - 1), Rendered(segs[k - 1], values));
      }
    }
  }

  /** Rendering succeeds exactly when every placeholder has a non-empty, control-free value that is no dot segment. */
  lemma RenderSucceedsExactlyWhen(segs: seq<Segment>, values: map<Text, Text>)
    ensures RenderPath(segs, values).Ok? <==> AllRenderable(segs, values, |segs|)
  {
    RenderMeaning(segs, values, |segs|);
  }

  ghost predicate SafePart(p: Text) {
    p != [] && SLASH !in p && PathOnly(p) && !IsDots(p)
  }

  lemma RenderedPartsAreSafe(segs: seq<Segment>, values: map<Text, Text>)
    requires GoodSegments(segs) && AllRenderable(segs, values, |segs|)
    ensures forall p | p in RenderedParts(segs, values, |segs|) :: SafePart(p)
  {
    var parts := RenderedParts(segs, values, |segs|);
    forall i | 0 <= i < |parts| ensures SafePart(parts[i]) {
      assert Renderable(segs[i], values) && GoodSegment(segs[i]);
      if segs[i].Placeholder? {
        EncodedPart(values[segs[i].name]);
      }
    }
  }

  /** A rendered path splits on '/' into exactly the template's segments, each value in its own place. */
  lemma RenderKeepsSegments(segs: seq<Segment>, values: map<Text, Text>)
    requires GoodSegments(segs) && segs != [] && RenderPath(segs, values).Ok?
    ensures var path := RenderPath(segs, values).value;
      && path != [] && path[0] == SLASH && PathOnly(path)
      && var parts := Split(path[1..]);
      && |parts| == |segs|
      && forall i | 0 <= i < |segs| ::
           && SafePart(parts[i])
           && (segs[i].Literal? ==> parts[i] == segs[i].text)
           && (segs[i].Placeholder? ==> segs[i].name in values && Decode(parts[i]) == values[segs[i].name])
  {
    RenderMeaning(segs, values, |segs|);
    var parts := RenderedParts(segs, values, |segs|);
    RenderedPartsAreSafe(segs, values);
    SplitOfJoin(parts);
    JoinedPath(parts);
    forall i | 0 <= i < |segs| && segs[i].Placeholder?
      ensures segs[i].name in values && Decode(parts[i]) == values[segs[i].name]
    {
      assert Renderable(segs[i], values);
      DecodeOfEncode(values[segs[i].name]);
    }
    forall i | 0 <= i < |segs| ensures SafePart(parts[i]) {
      assert parts[i] in parts;
    }
  }

  /** Two renderings of a template are equal only if all placeholder values are. */
  lemma RenderIsInjective(segs: seq<Segment>, v: map<Text, Text>, w: map<Text, Text>)
    requires GoodSegments(segs) && RenderPath(segs, v).Ok? && RenderPath(segs, v) == RenderPath(segs, w)
    ensures forall i | 0 <= i < |segs| && segs[i].Placeholder? ::
      segs[i].name in v && segs[i].name in w && v[segs[i].name] == w[segs[i].name]
  {
    if segs != [] {
      RenderKeepsSegments(segs, v);
      RenderKeepsSegments(segs, w);
    }
  }

  // ----- Dot-segment removal -----

  /** The leading '/' and everything up to the next one. */
  function FirstSegmentEnd(input: Text, i: nat): (k: nat)
    requires 1 <= i <= |input|
    ensures i <= k <= |input| && SLASH !in input[i..k] && (k < |input| ==> input[k] == SLASH)
    decreases |input| - i
  {
    if i == |input| || input[i] == SLASH then i else
    var k := FirstSegmentEnd(input, i + 1);
    assert input[i..k] == [input[i]] + input[i + 1..k];
    k
  }

  function DropLastSegment(output: Text): (r: Text)
    ensures |r| <= |output|
  {
    if output == [] then []
    else if output[|output| - 1] == SLASH then output[..|output| - 1]
    else DropLastSegment(output[..|output| - 1])
  }

  /** One pass of the loop of section 5.2.4 of RFC 3986: the new input and output buffers. */
  function DotStep(input: Text, output: Text): (r: (Text, Text))
    requires input != []
    ensures |r.0| < |input|
  {
    if [DOT, DOT, SLASH] <= input then (input[3..], output)
    else if [DOT, SLASH] <= input then (input[2..], output)
    else if [SLASH, DOT, SLASH] <= input then (input[2..], output)
    else if input == [SLASH, DOT] then ([SLASH], output)
    else if [SLASH, DOT, DOT, SLASH] <= input then (input[3..], DropLastSegment(output))
    else if input == [SLASH, DOT, DOT] then ([SLASH], DropLastSegment(output))
    else if IsDots(input) then ([], output)
    else
      var k := FirstSegmentEnd(input, 1);
      (input[k..], output + input[..k])
  }

  function RemoveDotSegments(input: Text, output: Text): Text
    decreases |input|
  {
    if input == [] then output else
    var (rest, moved) := DotStep(input, output);
    RemoveDotSegments(rest, moved)
  }

  lemma {:induction false} DroppingTheLastSegment(output: Text, p: Text)
    requires SLASH !in p
    ensures DropLastSegment(output + [SLASH] + p) == output
  {
    var whole := output + [SLASH] + p;
    if p == [] {
      assert whole[..|whole| - 1] == output;
    } else {
      assert whole[|whole| - 1] == p[|p| - 1];
      assert whole[..|whole| - 1] == output + [SLASH] + p[..|p| - 1];
      DroppingTheLastSegment(output, p[..|p| - 1]);
    }
  }

  /** In an absolute path "." goes away, and ".." takes the segment before it along. */
  lemma DotSegmentsAreRemoved(p: Text, rest: Text, output: Text)
    requires SLASH !in p
    ensures RemoveDotSegments([SLASH, DOT, SLASH] + rest, output) == RemoveDotSegments([SLASH] + rest, output)
    ensures RemoveDotSegments([SLASH, DOT, DOT, SLASH] + rest, output + [SLASH] + p) ==
            RemoveDotSegments([SLASH] + rest, output)
    ensures RemoveDotSegments([SLASH, DOT], output) == output + [SLASH]
    ensures RemoveDotSegments([SLASH, DOT, DOT], output + [SLASH] + p) == output + [SLASH]
  {
    var one, two := [SLASH, DOT, SLASH] + rest, [SLASH, DOT, DOT, SLASH] + rest;
    assert one[0] == SLASH && one[2..] == [SLASH] + rest;
    assert two[0] == SLASH && two[2] == DOT && two[3..] == [SLASH] + rest;
    DroppingTheLastSegment(output, p);
    assert RemoveDotSegments([SLASH], output) == output + [SLASH] by {
      assert DotStep([SLASH], output) == ([SLASH][1..], output + [SLASH][..1]);
      assert [SLASH][1..] == [] && [SLASH][..1] == [SLASH];
    }
  }

  /** A path starting with a safe part takes only the step that moves the part to the output. */
  lemma NoDotPrefix(p: Text, rest: Text)
    requires SafePart(p) && (rest == [] || rest[0] == SLASH)
    ensures var s := [SLASH] + p + rest;
      && !([DOT, DOT, SLASH] <= s) && !([DOT, SLASH] <= s) && !IsDots(s)
      && !([SLASH, DOT, SLASH] <= s) && s != [SLASH, DOT]
      && !([SLASH, DOT, DOT, SLASH] <= s) && s != [SLASH, DOT, DOT]
  {
    var s := [SLASH] + p + rest;
    assert s[0] == SLASH;
    assert s[1..|p| + 1] == p;
    assert |s| > 2 && |p| > 1 ==> s[2] == p[1];
    assert |s| > 3 && |p| > 2 ==> s[3] == p[2];
    assert s[1] == p[0];
    assert |p| == 1 ==> p == [p[0]];
    assert |p| == 2 ==> p == [p[0], p[1]];
  }

  lemma RemovalMovesFirstPart(p: Text, rest: Text, output: Text)
    requires SafePart(p) && (rest == [] || rest[0] == SLASH)
    ensures RemoveDotSegments([SLASH] + p + rest, output) == RemoveDotSegments(rest, output + ([SLASH] + p))
  {
    var s := [SLASH] + p + rest;
    NoDotPrefix(p, rest);
    assert s[|p| + 1..] == rest && s[..|p| + 1] == [SLASH] + p;
    assert DotStep(s, output) == (rest, output + ([SLASH] + p));
  }

  /** Removal copies this text to the output, whatever is there already. */
  ghost predicate CopiedByRemoval(s: Text) {
    forall output :: RemoveDotSegments(s, output) == output + s
  }

  lemma CopiedPart(p: Text, rest: Text)
    requires SafePart(p) && (rest == [] || rest[0] == SLASH) && CopiedByRemoval(rest)
    ensures CopiedByRemoval([SLASH] + p + rest)
  {
    forall output ensures RemoveDotSegments([SLASH] + p + rest, output) == output + ([SLASH] + p + rest) {
      RemovalMovesFirstPart(p, rest, output);
    }
  }

  lemma {:induction false} SafePartsAreCopied(parts: seq<Text>)
    requires forall p | p in parts :: SafePart(p)
    ensures CopiedByRemoval(Join(parts))
  {
    if parts != [] {
      SafePartsAreCopied(parts[1..]);
      CopiedPart(parts[0], Join(parts[1..]));
    }
  }

  /** Dot-segment removal, which every URL parser applies, leaves a rendered path as it is. */
  lemma RenderSurvivesDotRemoval(segs: seq<Segment>, values: map<Text, Text>)
    requires GoodSegments(segs) && RenderPath(segs, values).Ok?
    ensures RemoveDotSegments(RenderPath(segs, values).value, []) == RenderPath(segs, values).value
  {
    if segs != [] {
      RenderMeaning(segs, values, |segs|);
      RenderedPartsAreSafe(segs, values);
      SafePartsAreCopied(RenderedParts(segs, values, |segs|));
    }
  }

  /**
   A parser that also reads %2E as a dot sees a dot segment exactly when the template's own text has one:
   values never make one, but a literal may.
   */
  lemma DecodedDotsComeFromLiterals(segs: seq<Segment>, values: map<Text, Text>)
    requires GoodSegments(segs) && segs != [] && RenderPath(segs, values).Ok?
    ensures var path := RenderPath(segs, values).value;
      path != [] &&
      ((exists p :: p in Split(path[1..]) && IsDots(Decode(p))) <==>
       (exists seg :: seg in segs && seg.Literal? && IsDots(Decode(seg.text))))
  {
    RenderKeepsSegments(segs, values);
    RenderMeaning(segs, values, |segs|);
    var parts := Split(RenderPath(segs, values).value[1..]);
    if p :| p in parts && IsDots(Decode(p)) {
      var i :| 0 <= i < |parts| && parts[i] == p;
      assert Renderable(segs[i], values);
      assert segs[i] in segs && segs[i].Literal?;
    }
    if seg :| seg in segs && seg.Literal? && IsDots(Decode(seg.text)) {
      var i :| 0 <= i < |segs| && segs[i] == seg;
      assert parts[i] in parts;
    }
  }

  lemma DecodeTriplet(h: byte, l: byte, rest: Text)
    requires IsHex(h) && IsHex(l)
    ensures Decode([PERCENT, h, l] + rest) == [16 * HexValue(h) + HexValue(l)] + Decode(rest)
  {
    assert ([PERCENT, h, l] + rest)[3..] == rest;
  }

  /** A well-formed literal makes a template of its own, which renders to itself. */
  lemma LoneLiteral(text: Text)
    requires GoodSegment(Literal(text))
    ensures ParseTemplate([SLASH] + text) == Ok([Literal(text)])
    ensures RenderPath([Literal(text)], map[]) == Ok([SLASH] + text)
  {
    var segs := [Literal(text)];
    JoinAppend([], text);
    assert ShowAll(segs) == [] + [text];
    assert Print(segs) == [SLASH] + text;
    PrintThenParse(segs);
    var none: Text := [];
    assert RenderTo(segs, map[], 0) == Ok(none) && none + [SLASH] == [SLASH];
  }

  /** "%2e%2e" */
  const ENCODED_DOTS: Text := [PERCENT, 0x32, 0x65] + [PERCENT, 0x32, 0x65]

  lemma EncodedDotsAreDots()
    ensures GoodSegment(Literal(ENCODED_DOTS)) && IsDots(Decode(ENCODED_DOTS))
  {
    var dot: Text := [PERCENT, 0x32, 0x65];
    DecodeTriplet(0x32, 0x65, dot);
    DecodeTriplet(0x32, 0x65, []);
    assert dot + [] == dot;
  }

  /** The template "/%2e%2e" is accepted and renders to itself, although its one segment decodes to "..". */
  lemma EncodedDotsAreAccepted()
    ensures ParseTemplate([SLASH] + ENCODED_DOTS) == Ok([Literal(ENCODED_DOTS)])
    ensures RenderPath([Literal(ENCODED_DOTS)], map[]) == Ok([SLASH] + ENCODED_DOTS)
    ensures IsDots(Decode(ENCODED_DOTS))
  {
    EncodedDotsAreDots();
    LoneLiteral(ENCODED_DOTS);
  }
}
