/**
 Path templates: a template is parsed once into whole-segment literals and placeholders, and
 rendering percent-encodes each value. All text is UTF-8 bytes.
 */
module UrlTemplates {
  import opened Wrappers
  import opened Unicode

  type Text = seq<byte>

  const SLASH: byte := 0x2F
  const DOT: byte := 0x2E
  const PERCENT: byte := 0x25
  const QUESTION: byte := 0x3F
  const HASH: byte := 0x23
  const COLON: byte := 0x3A
  const OPEN: byte := 0x7B
  const CLOSE: byte := 0x7D
  const UNDERSCORE: byte := 0x5F

  datatype Segment = Literal(text: Text) | Placeholder(name: Text)

  datatype TemplateError =
    | NotAbsolute(template: Text)
    | DoubleSlashStart(template: Text)
    | ContainsQueryOrFragment(template: Text)
    | ContainsSchemeSeparator(template: Text)
    | MixedSegment(raw: Text)
    | DotSegment(raw: Text)
    | EmptySegment
    | DuplicatePlaceholder(name: Text)
    | MalformedPercentEncoding(raw: Text)
    | MissingValue(name: Text)
    | EmptyValue(name: Text)
    | DotValue(name: Text)
    | ControlCharacter(name: Text)

  // ----- Splitting on '/' -----

  function FirstSlash(s: Text): (k: nat)
    requires SLASH in s
    ensures k < |s| && s[k] == SLASH && SLASH !in s[..k]
  {
    if s[0] == SLASH then 0 else
    var k := FirstSlash(s[1..]);
    assert s[..k + 1] == [s[0]] + s[1..][..k];
    k + 1
  }

  function Split(s: Text): (parts: seq<Text>)
    ensures |parts| >= 1
  {
    if SLASH !in s then [s] else
    var k := FirstSlash(s);
    [s[..k]] + Split(s[k + 1..])
  }

  /** Every part preceded by a '/'. */
  function Join(parts: seq<Text>): Text {
    if parts == [] then [] else [SLASH] + parts[0] + Join(parts[1..])
  }

  ghost predicate SlashFree(parts: seq<Text>) {
    forall p | p in parts :: SLASH !in p
  }

  lemma {:induction false} JoinOfSplit(s: Text)
    ensures Join(Split(s)) == [SLASH] + s
    ensures SlashFree(Split(s))
  {
    if SLASH !in s {
      assert Join([s]) == [SLASH] + s + Join([]);
    } else {
      var k := FirstSlash(s);
      JoinOfSplit(s[k + 1..]);
      assert Split(s)[1..] == Split(s[k + 1..]);
      assert s == s[..k] + [SLASH] + s[k + 1..];
    }
  }

  lemma FirstSlashAt(a: Text, b: Text)
    requires SLASH !in a && b != [] && b[0] == SLASH
    ensures SLASH in a + b && FirstSlash(a + b) == |a|
  {
    assert (a + b)[|a|] == SLASH && (a + b)[..|a|] == a;
  }

  lemma SplitAt(a: Text, b: Text)
    requires SLASH !in a && (b == [] || b[0] == SLASH)
    ensures Split(a + b) == if b == [] then [a] else [a] + Split(b[1..])
  {
    if b == [] {
      assert a + b == a;
    } else {
      FirstSlashAt(a, b);
      assert (a + b)[|a| + 1..] == b[1..];
      assert (a + b)[..|a|] == a;
    }
  }

  lemma JoinTail(parts: seq<Text>)
    requires parts != []
    ensures Join(parts)[1..] == parts[0] + Join(parts[1..])
    ensures Join(parts[1..]) == [] <==> |parts| == 1
  {
    assert Join(parts) == [SLASH] + (parts[0] + Join(parts[1..]));
  }

  lemma {:induction false} SplitOfJoin(parts: seq<Text>)
    requires parts != [] && SlashFree(parts)
    ensures Join(parts) != [] && Join(parts)[0] == SLASH && Split(Join(parts)[1..]) == parts
  {
    assert parts[0] in parts;
    JoinTail(parts);
    if |parts| > 1 {
      SplitOfJoin(parts[1..]);
    }
    SplitAt(parts[0], Join(parts[1..]));
    assert parts == [parts[0]] + parts[1..];
  }

  // ----- Segments -----

  predicate IsHex(b: byte) {
    0x30 <= b <= 0x39 || 0x41 <= b <= 0x46 || 0x61 <= b <= 0x66
  }

  predicate IsAlphanumeric(b: byte) {
    0x30 <= b <= 0x39 || 0x41 <= b <= 0x5A || 0x61 <= b <= 0x7A
  }

  predicate IsName(s: Text) {
    s != [] && forall b | b in s :: IsAlphanumeric(b) || b == UNDERSCORE
  }

  predicate IsDots(s: Text) {
    s == [DOT] || s == [DOT, DOT]
  }

  /** Every '%' is followed by two hex digits. */
  predicate PercentEncoded(s: Text) {
    forall i | 0 <= i < |s| && s[i] == PERCENT :: i + 2 < |s| && IsHex(s[i + 1]) && IsHex(s[i + 2])
  }

  method ValidatePercentEncoding(s: Text) returns (e: Option<TemplateError>)
    ensures e == if PercentEncoded(s) then None else Some(MalformedPercentEncoding(s))
  {
    var i := 0;
    while i < |s|
      invariant 0 <= i <= |s|
      invariant forall j | 0 <= j < i && s[j] == PERCENT :: j + 2 < |s| && IsHex(s[j + 1]) && IsHex(s[j + 2])
    {
      if s[i] == PERCENT {
        if i + 2 >= |s| || !IsHex(s[i + 1]) || !IsHex(s[i + 2]) {
          return Some(MalformedPercentEncoding(s));
        }
        i := i + 3;
      } else {
        i := i + 1;
      }
    }
    e := None;
  }

  function ParseSegment(raw: Text): Result<Segment, TemplateError> {
    if OPEN in raw || CLOSE in raw then
      if |raw| >= 2 && raw[0] == OPEN && raw[|raw| - 1] == CLOSE && IsName(raw[1..|raw| - 1])
      then Ok(Placeholder(raw[1..|raw| - 1]))
      else Err(MixedSegment(raw))
    else if IsDots(raw) then Err(DotSegment(raw))
    else if !PercentEncoded(raw) then Err(MalformedPercentEncoding(raw))
    else Ok(Literal(raw))
  }

  function Show(seg: Segment): Text {
    match seg
    case Literal(text) => text
    case Placeholder(name) => [OPEN] + name + [CLOSE]
  }

  /** The segments a template can consist of. */
  ghost predicate GoodSegment(seg: Segment) {
    match seg
    case Literal(text) =>
      && text != [] && !IsDots(text) && PercentEncoded(text)
      && SLASH !in text && QUESTION !in text && HASH !in text && OPEN !in text && CLOSE !in text
    case Placeholder(name) => IsName(name)
  }

  ghost predicate DistinctNames(segs: seq<Segment>) {
    forall i, j | 0 <= i < j < |segs| && segs[i].Placeholder? :: segs[i] != segs[j]
  }

  ghost predicate GoodSegments(segs: seq<Segment>) {
    (forall i | 0 <= i < |segs| :: GoodSegment(segs[i])) && DistinctNames(segs)
  }

  /** The template's own text is free of query and fragment marks. */
  predicate PathOnly(s: Text) {
    QUESTION !in s && HASH !in s
  }

  lemma ParsedSegment(raw: Text)
    requires raw != [] && SLASH !in raw && PathOnly(raw)
    ensures ParseSegment(raw).Ok? ==> GoodSegment(ParseSegment(raw).value) && Show(ParseSegment(raw).value) == raw
  {
  }

  // ----- Parsing a template -----

  function AddPart(segs: seq<Segment>, raw: Text): Result<seq<Segment>, TemplateError> {
    if raw == [] then Err(EmptySegment) else
    match ParseSegment(raw)
    case Err(e) => Err(e)
    case Ok(seg) =>
      if seg.Placeholder? && seg in segs then Err(DuplicatePlaceholder(seg.name)) else Ok(segs + [seg])
  }

  /** The outcome after the first `k` raw segments: the first error met, or the segments so far. */
  function ParseParts(parts: seq<Text>, k: nat): Result<seq<Segment>, TemplateError>
    requires k <= |parts|
  {
    if k == 0 then Ok([]) else
    var before := ParseParts(parts, k - 1);
    if before.Err? then before else AddPart(before.value, parts[k - 1])
  }

  predicate OccursAt(s: Text, part: Text, i: nat) {
    i <= |s| && part <= s[i..]
  }

  predicate Contains(s: Text, part: Text) {
    exists i | 0 <= i <= |s| :: OccursAt(s, part, i)
  }

  function ParseTemplate(t: Text): Result<seq<Segment>, TemplateError> {
    if t == [] || t[0] != SLASH then Err(NotAbsolute(t))
    else if [SLASH, SLASH] <= t then Err(DoubleSlashStart(t))
    else if !PathOnly(t) then Err(ContainsQueryOrFragment(t))
    else if Contains(t, [COLON, SLASH, SLASH]) then Err(ContainsSchemeSeparator(t))
    else if t == [SLASH] then Ok([])
    else ParseParts(Split(t[1..]), |Split(t[1..])|)
  }

  lemma {:induction false} ErrorsStick(parts: seq<Text>, j: nat, k: nat)
    requires j <= k <= |parts| && ParseParts(parts, j).Err?
    ensures ParseParts(parts, k) == ParseParts(parts, j)
  {
    if j < k {
      ErrorsStick(parts, j, k - 1);
    }
  }

  method Parse(t: Text) returns (r: Result<seq<Segment>, TemplateError>)
    ensures r == ParseTemplate(t)
  {
    if t == [] || t[0] != SLASH { return Err(NotAbsolute(t)); }
    if [SLASH, SLASH] <= t { return Err(DoubleSlashStart(t)); }
    if !PathOnly(t) { return Err(ContainsQueryOrFragment(t)); }
    if Contains(t, [COLON, SLASH, SLASH]) { return Err(ContainsSchemeSeparator(t)); }
    if t == [SLASH] { return Ok([]); }
    var parts := Split(t[1..]);
    var segments: seq<Segment> := [];
    var seen: set<Text> := {};
    for k := 0 to |parts|
      invariant ParseParts(parts, k) == Ok(segments)
      invariant forall name :: name in seen <==> Placeholder(name) in segments
    {
      var raw := parts[k];
      if raw == [] {
        ErrorsStick(parts, k + 1, |parts|);
        return Err(EmptySegment);
      }
      var parsed := ParseSegment(raw);
      if parsed.Err? {
        ErrorsStick(parts, k + 1, |parts|);
        return Err(parsed.error);
      }
      if parsed.value.Placeholder? {
        if parsed.value.name in seen {
          ErrorsStick(parts, k + 1, |parts|);
          return Err(DuplicatePlaceholder(parsed.value.name));
        }
        seen := seen + {parsed.value.name};
      }
      segments := segments + [parsed.value];
    }
    r := Ok(segments);
  }

  // ----- Printing -----

  function ShowAll(segs: seq<Segment>): (parts: seq<Text>)
    ensures |parts| == |segs|
  {
    seq(|segs|, i requires 0 <= i < |segs| => Show(segs[i]))
  }

  function Print(segs: seq<Segment>): Text {
    if segs == [] then [SLASH] else Join(ShowAll(segs))
  }

  lemma AddedPart(segs: seq<Segment>, raw: Text)
    requires GoodSegments(segs) && SLASH !in raw && PathOnly(raw) && AddPart(segs, raw).Ok?
    ensures GoodSegments(AddPart(segs, raw).value) && ShowAll(AddPart(segs, raw).value) == ShowAll(segs) + [raw]
  {
    ParsedSegment(raw);
  }

  lemma OneMoreParsed(parts: seq<Text>, k: nat, before: seq<Segment>)
    requires 0 < k <= |parts| && ParseParts(parts, k - 1) == Ok(before)
    ensures ParseParts(parts, k) == AddPart(before, parts[k - 1])
    ensures parts[..k] == parts[..k - 1] + [parts[k - 1]]
  {
  }

  lemma {:induction false} ParsedParts(parts: seq<Text>, k: nat)
    requires k <= |parts| && ParseParts(parts, k).Ok?
    requires forall i | 0 <= i < k :: SLASH !in parts[i] && PathOnly(parts[i])
    ensures GoodSegments(ParseParts(parts, k).value) && ShowAll(ParseParts(parts, k).value) == parts[..k]
  {
    if k > 0 {
      ParsedParts(parts, k - 1);
      var before := ParseParts(parts, k - 1).value;
      OneMoreParsed(parts, k, before);
      AddedPart(before, parts[k - 1]);
    }
  }

  lemma {:induction false} PartsOf(s: Text, p: Text)
    requires p in Split(s)
    ensures forall b | b in p :: b in s
  {
    if SLASH in s && p != s[..FirstSlash(s)] {
      PartsOf(s[FirstSlash(s) + 1..], p);
    }
  }

  lemma SplitIsClean(t: Text)
    requires PathOnly(t)
    ensures forall p | p in Split(t) :: SLASH !in p && PathOnly(p)
  {
    JoinOfSplit(t);
    forall p | p in Split(t) ensures SLASH !in p && PathOnly(p) {
      PartsOf(t, p);
    }
  }

  lemma ParsedInFull(parts: seq<Text>)
    requires ParseParts(parts, |parts|).Ok? && parts != []
    requires forall p | p in parts :: SLASH !in p && PathOnly(p)
    ensures var segs := ParseParts(parts, |parts|).value; GoodSegments(segs) && Print(segs) == Join(parts)
  {
    forall i | 0 <= i < |parts| ensures SLASH !in parts[i] && PathOnly(parts[i]) {
      assert parts[i] in parts;
    }
    ParsedParts(parts, |parts|);
    assert parts[..|parts|] == parts;
  }

  lemma TailIsPathOnly(t: Text)
    requires t != [] && PathOnly(t)
    ensures PathOnly(t[1..]) && t == [t[0]] + t[1..]
  {
  }

  /** Parsing loses nothing: the segments print back to the template, and are well formed. */
  lemma ParseThenPrint(t: Text)
    requires ParseTemplate(t).Ok?
    ensures GoodSegments(ParseTemplate(t).value) && Print(ParseTemplate(t).value) == t
  {
    if t != [SLASH] {
      TailIsPathOnly(t);
      SplitIsClean(t[1..]);
      JoinOfSplit(t[1..]);
      ParsedInFull(Split(t[1..]));
    }
  }

  lemma AddShown(segs: seq<Segment>, seg: Segment)
    requires GoodSegment(seg) && (seg.Placeholder? ==> seg !in segs)
    ensures AddPart(segs, Show(seg)) == Ok(segs + [seg])
  {
  }

  lemma NotYetNamed(segs: seq<Segment>, k: nat)
    requires GoodSegments(segs) && 0 < k <= |segs|
    ensures GoodSegment(segs[k - 1]) && (segs[k - 1].Placeholder? ==> segs[k - 1] !in segs[..k - 1])
    ensures segs[..k] == segs[..k - 1] + [segs[k - 1]]
  {
  }

  lemma {:induction false} PartsInSteps(parts: seq<Text>, segs: seq<Segment>, k: nat)
    requires k <= |parts| == |segs|
    requires forall i | 0 <= i < |segs| :: AddPart(segs[..i], parts[i]) == Ok(segs[..i + 1])
    ensures ParseParts(parts, k) == Ok(segs[..k])
  {
    if k > 0 {
      PartsInSteps(parts, segs, k - 1);
    }
  }

  lemma ShownPart(segs: seq<Segment>, i: nat)
    requires GoodSegments(segs) && i < |segs|
    ensures AddPart(segs[..i], ShowAll(segs)[i]) == Ok(segs[..i + 1])
  {
    NotYetNamed(segs, i + 1);
    AddShown(segs[..i], segs[i]);
  }

  lemma ShownParts(segs: seq<Segment>)
    requires GoodSegments(segs)
    ensures ParseParts(ShowAll(segs), |segs|) == Ok(segs)
  {
    forall i | 0 <= i < |segs| ensures AddPart(segs[..i], ShowAll(segs)[i]) == Ok(segs[..i + 1]) {
      ShownPart(segs, i);
    }
    PartsInSteps(ShowAll(segs), segs, |segs|);
    assert segs[..|segs|] == segs;
  }

  lemma {:induction false} JoinBytes(parts: seq<Text>, b: byte)
    requires b in Join(parts)
    ensures b == SLASH || exists p | p in parts :: b in p
  {
    if b != SLASH && b !in parts[0] {
      JoinBytes(parts[1..], b);
    }
  }

  /** Two adjacent slashes in a joined path mean an empty part. */
  lemma {:induction false} NoDoubleSlash(parts: seq<Text>, i: nat)
    requires SlashFree(parts) && (forall p | p in parts :: p != []) && i + 1 < |Join(parts)|
    ensures !(Join(parts)[i] == SLASH && Join(parts)[i + 1] == SLASH)
  {
    var s, n := Join(parts), |parts[0]|;
    var rest := Join(parts[1..]);
    assert s == [SLASH] + parts[0] + rest;
    assert parts[0] in parts;
    if i < n {
      assert s[i + 1] == parts[0][i];
    } else if i == n {
      assert s[i] == parts[0][n - 1];
    } else {
      assert s[i] == rest[i - n - 1] && s[i + 1] == rest[i - n];
      assert forall p | p in parts[1..] :: p in parts;
      NoDoubleSlash(parts[1..], i - n - 1);
    }
  }

  lemma NoSchemeSeparator(t: Text)
    requires forall i: nat | i + 1 < |t| :: !(t[i] == SLASH && t[i + 1] == SLASH)
    ensures !Contains(t, [COLON, SLASH, SLASH])
  {
    forall i: nat | i <= |t| ensures !OccursAt(t, [COLON, SLASH, SLASH], i) {
      assert i + 2 < |t| ==> t[i..][1] == t[i + 1] && t[i..][2] == t[i + 2];
    }
  }

  /** Slash-free, non-empty parts without query or fragment marks join to a path every check lets through. */
  lemma JoinedPath(parts: seq<Text>)
    requires parts != [] && forall p | p in parts :: p != [] && SLASH !in p && PathOnly(p)
    ensures var t := Join(parts);
      && |t| >= 2 && t[0] == SLASH && !([SLASH, SLASH] <= t) && PathOnly(t)
      && !Contains(t, [COLON, SLASH, SLASH])
  {
    var t := Join(parts);
    assert parts[0] in parts;
    forall b | b in t ensures b != QUESTION && b != HASH {
      JoinBytes(parts, b);
    }
    forall i: nat | i + 1 < |t| ensures !(t[i] == SLASH && t[i + 1] == SLASH) {
      NoDoubleSlash(parts, i);
    }
    assert !(t[0] == SLASH && t[1] == SLASH);
    NoSchemeSeparator(t);
  }

  lemma ShownOne(seg: Segment)
    requires GoodSegment(seg)
    ensures Show(seg) != [] && SLASH !in Show(seg) && PathOnly(Show(seg))
  {
  }

  lemma ShownAll(segs: seq<Segment>)
    requires GoodSegments(segs)
    ensures forall p | p in ShowAll(segs) :: p != [] && SLASH !in p && PathOnly(p)
  {
    forall p | p in ShowAll(segs) ensures p != [] && SLASH !in p && PathOnly(p) {
      var i :| 0 <= i < |segs| && ShowAll(segs)[i] == p;
      ShownOne(segs[i]);
    }
  }

  /** Printing well-formed segments and parsing the text gives the segments back. */
  lemma PrintThenParse(segs: seq<Segment>)
    requires GoodSegments(segs)
    ensures ParseTemplate(Print(segs)) == Ok(segs)
  {
    if segs != [] {
      var parts := ShowAll(segs);
      ShownAll(segs);
      JoinedPath(parts);
      SplitOfJoin(parts);
      ShownParts(segs);
    }
  }

  /** A text is a template exactly when it is the printed form of well-formed segments. */
  lemma TemplatesAreThePrintedForms(t: Text)
    ensures ParseTemplate(t).Ok? <==> exists segs :: GoodSegments(segs) && Print(segs) == t
  {
    if ParseTemplate(t).Ok? {
      ParseThenPrint(t);
    } else if segs :| GoodSegments(segs) && Print(segs) == t {
      PrintThenParse(segs);
    }
  }
}
