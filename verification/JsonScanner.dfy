/** The flat JSON scanner of geekopen.cpp: five states, one pass, spans instead of copies. */
module JsonScanner {

  datatype Phase = ObjectStart | KeyOrEnd | Colon | Value | CommaOrEnd

  /** Offsets into the text, each end exclusive. */
  datatype Property = Property(keyBegin: nat, keyEnd: nat, valueBegin: nat, valueEnd: nat)

  /** Where the scan stands: keyBegin and keyEnd belong to the property that is being read. */
  datatype Scan = Scan(p: nat, phase: Phase, props: seq<Property>, keyBegin: nat, keyEnd: nat, done: bool)

  predicate IsSpace(c: char) { c == ' ' || c == '\n' || c == '\r' || c == '\t' }
  predicate NotSpace(c: char) { !IsSpace(c) }
  predicate IsQuote(c: char) { c == '"' }
  predicate EndsBare(c: char) { c == ',' || c == '}' }

  /** The character at p, or the one in memory behind the text. */
  function CharAt(json: string, behind: char, p: nat): char {
    if p < |json| then json[p] else behind
  }

  /** The first position from p on where stop holds, or the end of the text; behind the text, p itself. */
  function SkipUntil(json: string, p: nat, stop: char -> bool): (q: nat)
    ensures p <= q && (p <= |json| ==> q <= |json|)
    decreases |json| - p
  {
    if p >= |json| || stop(json[p]) then p else SkipUntil(json, p + 1, stop)
  }

  /** SkipUntil finds the first stop and nothing before it. */
  lemma {:induction false} FindsFirst(json: string, p: nat, stop: char -> bool)
    requires p <= |json|
    ensures var q := SkipUntil(json, p, stop);
            && (forall i :: p <= i < q ==> !stop(json[i]))
            && (q < |json| ==> stop(json[q]))
    decreases |json| - p
  {
    if p < |json| && !stop(json[p]) { FindsFirst(json, p + 1, stop); }
  }

  /** With its key read, the property that starts at the opening quote q. */
  function KeyAt(json: string, max: nat, s: Scan, q: nat): Scan {
    var keyEnd := SkipUntil(json, q + 1, IsQuote);
    if |s.props| < max then Scan(keyEnd + 1, Colon, s.props, q + 1, keyEnd, false)
    else s.(p := keyEnd + 1, done := true)
  }

  /** With its value read, which starts at q and keeps its opening quote but not its closing one. */
  function ValueAt(json: string, behind: char, s: Scan, q: nat): Scan {
    var quoted := CharAt(json, behind, q) == '"';
    var valueEnd := if quoted then SkipUntil(json, q + 1, IsQuote) else SkipUntil(json, q, EndsBare);
    s.(p := if quoted then valueEnd + 1 else valueEnd, phase := CommaOrEnd,
       props := s.props + [Property(s.keyBegin, s.keyEnd, q, valueEnd)])
  }

  /** One turn of the scanning loop, which may look at the character behind the text. */
  function Step(json: string, behind: char, max: nat, s: Scan): Scan
    requires s.p < |json| && !s.done
  {
    var q := SkipUntil(json, s.p, NotSpace);
    var c := CharAt(json, behind, q);
    match s.phase
    case ObjectStart => s.(p := q + 1, phase := if c == '{' then KeyOrEnd else ObjectStart)
    case KeyOrEnd =>
      if c == '}' then s.(p := q, done := true)
      else if c == '"' then KeyAt(json, max, s, q)
      else s.(p := q + 1)
    case Colon => s.(p := q + 1, phase := if c == ':' then Value else Colon)
    case Value => ValueAt(json, behind, s, q)
    case CommaOrEnd =>
      if c == ',' then s.(p := q + 1, phase := KeyOrEnd)
      else if c == '}' then s.(p := q, done := true)
      else s.(p := q + 1)
  }

  /** The text left to scan. */
  function Left(json: string, s: Scan): nat {
    if s.done || s.p >= |json| then 0 else |json| - s.p
  }

  /** What the loop makes of a scan. An empty bare value consumes nothing, hence the second measure. */
  function Parse(json: string, behind: char, max: nat, s: Scan): seq<Property>
    decreases Left(json, s), if s.phase.Value? then 1 else 0
  {
    if s.done || s.p >= |json| then s.props else Parse(json, behind, max, Step(json, behind, max, s))
  }

  const START := Scan(0, ObjectStart, [], 0, 0, false)

  method TrimWhitespace(json: string, begin: nat) returns (p: nat)
    requires begin <= |json|
    ensures p == SkipUntil(json, begin, NotSpace)
  {
    p := begin;
    while p < |json| && IsSpace(json[p])
      invariant begin <= p <= |json|
      invariant SkipUntil(json, p, NotSpace) == SkipUntil(json, begin, NotSpace)
    {
      p := p + 1;
    }
  }

  method ScanTo(json: string, begin: nat, stop: char -> bool) returns (p: nat)
    ensures p == SkipUntil(json, begin, stop)
  {
    p := begin;
    while p < |json| && !stop(json[p])
      invariant begin <= p
      invariant SkipUntil(json, p, stop) == SkipUntil(json, begin, stop)
    {
      p := p + 1;
    }
  }

  /** The StateExpectValue case: completes properties[count]. */
  method ReadValue(json: string, behind: char, begin: nat, properties: array<Property>, count: nat) returns (p: nat)
    requires begin <= |json| && count < properties.Length
    modifies properties
    ensures var was := old(properties[count]);
            var t := ValueAt(json, behind, Scan(0, Value, [], was.keyBegin, was.keyEnd, false), begin);
            && p == t.p && properties[..] == old(properties[..])[count := t.props[0]]
  {
    properties[count] := properties[count].(valueBegin := begin);
    if CharAt(json, behind, begin) == '"' {
      p := ScanTo(json, begin + 1, IsQuote);
      properties[count] := properties[count].(valueEnd := p);
      p := p + 1;
    } else {
      p := ScanTo(json, begin, EndsBare);
      properties[count] := properties[count].(valueEnd := p);
    }
  }

  /** s_parse_json: fills properties in place and returns how many are complete. */
  method ParseJson(json: string, behind: char, properties: array<Property>, max: nat) returns (count: nat)
    requires properties.Length >= max
    modifies properties
    ensures count <= max
    ensures properties[..count] == Parse(json, behind, max, START)
    ensures properties[max..] == old(properties[max..])
  {
    var phase := ObjectStart;
    count := 0;
    var p := 0;
    ghost var s := START;
    while p < |json|
      invariant count <= max
      invariant s.p == p && s.phase == phase && s.props == properties[..count] && !s.done
      invariant phase.Colon? || phase.Value? ==>
                  count < max && properties[count].keyBegin == s.keyBegin && properties[count].keyEnd == s.keyEnd
      invariant Parse(json, behind, max, s) == Parse(json, behind, max, START)
      invariant properties[max..] == old(properties[max..])
      decreases if p < |json| then |json| - p else 0, if phase.Value? then 1 else 0
    {
      ghost var before := properties[..];
      s := Step(json, behind, max, s);
      p := TrimWhitespace(json, p);
      var c := CharAt(json, behind, p);
      match phase
      case ObjectStart =>
        if c == '{' { phase := KeyOrEnd; }
        p := p + 1;
      case KeyOrEnd =>
        if c == '}' {
          return;
        } else if c == '"' {
          var keyBegin := p + 1;
          p := ScanTo(json, p + 1, IsQuote);
          if count >= max { return; }
          properties[count] := properties[count].(keyBegin := keyBegin, keyEnd := p);
          phase := Colon;
        }
        p := p + 1;
      case Colon =>
        if c == ':' { phase := Value; }
        p := p + 1;
      case Value =>
        p := ReadValue(json, behind, p, properties, count);
        assert properties[..count + 1] == before[..count] + [properties[count]];
        count := count + 1;
        phase := CommaOrEnd;
      case CommaOrEnd =>
        if c == '}' { return; }
        if c == ',' { phase := KeyOrEnd; }
        p := p + 1;
    }
  }

  // ---------------------------------------------------------------- the character behind the text

  const NUL: char := '\0'

  /** The spans with the last value ended one further, if it is empty and begins where the text ends. */
  function Lengthened(json: string, props: seq<Property>): seq<Property> {
    if props != [] && props[|props| - 1].valueBegin == |json|
    then props[|props| - 1 := props[|props| - 1].(valueEnd := |json| + 1)]
    else props
  }

  predicate BeginsInside(json: string, props: seq<Property>) {
    forall r :: r in props ==> r.valueBegin < |json|
  }

  lemma StepInside(json: string, behind: char, max: nat, s: Scan)
    requires s.p < |json| && !s.done && BeginsInside(json, s.props) && SkipUntil(json, s.p, NotSpace) < |json|
    ensures Step(json, behind, max, s) == Step(json, NUL, max, s)
    ensures BeginsInside(json, Step(json, NUL, max, s).props)
  {
  }

  lemma ValueBehind(json: string, behind: char, s: Scan)
    requires BeginsInside(json, s.props)
    ensures var t, u := ValueAt(json, behind, s, |json|), ValueAt(json, NUL, s, |json|);
            && t.p >= |json| && u.p >= |json|
            && t.props == if behind == '"' then Lengthened(json, u.props) else u.props
  {
    assert SkipUntil(json, |json|, EndsBare) == |json| && SkipUntil(json, |json| + 1, IsQuote) == |json| + 1;
  }

  lemma NothingMissing(json: string, props: seq<Property>)
    requires BeginsInside(json, props)
    ensures Lengthened(json, props) == props
  {
    if props != [] { assert props[|props| - 1] in props; }
  }

  lemma StepOutside(json: string, behind: char, max: nat, s: Scan)
    requires s.p < |json| && !s.done && BeginsInside(json, s.props) && SkipUntil(json, s.p, NotSpace) == |json|
    ensures var t, u := Step(json, behind, max, s), Step(json, NUL, max, s);
            && (t.done || t.p >= |json|) && (u.done || u.p >= |json|)
            && t.props == if behind == '"' then Lengthened(json, u.props) else u.props
  {
    if s.phase.Value? { ValueBehind(json, behind, s); } else { NothingMissing(json, s.props); }
  }

  /**
   What the scan finds depends on the character behind the text only if that is a quote, and then only in the end
   of a last value that is missing.
   */
  lemma {:induction false} BehindMatters(json: string, behind: char, max: nat, s: Scan)
    requires BeginsInside(json, s.props)
    ensures Parse(json, behind, max, s)
         == if behind == '"' then Lengthened(json, Parse(json, NUL, max, s)) else Parse(json, NUL, max, s)
    decreases Left(json, s), if s.phase.Value? then 1 else 0
  {
    if s.done || s.p >= |json| {
      NothingMissing(json, s.props);
    } else if SkipUntil(json, s.p, NotSpace) < |json| {
      StepInside(json, behind, max, s);
      BehindMatters(json, behind, max, Step(json, behind, max, s));
    } else {
      StepOutside(json, behind, max, s);
    }
  }

  // ---------------------------------------------------------------- safety

  /** The spans of a property are what they should be: a quoted key, then a quoted or a bare value. */
  predicate IsToken(json: string, r: Property) {
    && 0 < r.keyBegin <= r.keyEnd < r.valueBegin <= r.valueEnd <= |json|
    && json[r.keyBegin - 1] == '"' && json[r.keyEnd] == '"'
    && (forall i :: r.keyBegin <= i < r.keyEnd ==> json[i] != '"')
    && if CharAt(json, NUL, r.valueBegin) == '"'
       then r.valueBegin < r.valueEnd && forall i :: r.valueBegin < i < r.valueEnd ==> json[i] != '"'
       else forall i :: r.valueBegin <= i < r.valueEnd ==> !EndsBare(json[i])
  }

  predicate Ordered(props: seq<Property>) {
    forall i :: 0 <= i < |props| - 1 ==> props[i].valueEnd < props[i + 1].keyBegin
  }

  predicate KeyRead(json: string, s: Scan) {
    && 0 < s.keyBegin <= s.keyEnd < s.p && s.keyEnd <= |json| && json[s.keyBegin - 1] == '"'
    && (forall i :: s.keyBegin <= i < s.keyEnd ==> json[i] != '"')
    && (s.keyEnd < |json| ==> json[s.keyEnd] == '"')
    && (s.props != [] ==> s.props[|s.props| - 1].valueEnd < s.keyBegin)
  }

  predicate Sound(json: string, max: nat, s: Scan) {
    && |s.props| <= max
    && (forall i :: 0 <= i < |s.props| ==> IsToken(json, s.props[i]))
    && Ordered(s.props)
    && (s.props != [] ==> s.props[|s.props| - 1].valueEnd <= s.p)
    && (s.phase.KeyOrEnd? && s.props != [] ==> s.props[|s.props| - 1].valueEnd < s.p)
    && (s.phase.ObjectStart? ==> s.props == [])
    && (s.phase.Colon? || s.phase.Value? ==> !s.done && |s.props| < max && KeyRead(json, s))
  }

  lemma KeySound(json: string, max: nat, s: Scan, q: nat)
    requires s.p <= q < |json| && json[q] == '"' && s.phase.KeyOrEnd? && !s.done && Sound(json, max, s)
    ensures Sound(json, max, KeyAt(json, max, s, q))
  {
    FindsFirst(json, q + 1, IsQuote);
  }

  lemma ValueSound(json: string, max: nat, s: Scan, q: nat)
    requires s.p <= q <= |json| && s.phase.Value? && s.p < |json| && Sound(json, max, s)
    ensures Sound(json, max, ValueAt(json, NUL, s, q))
  {
    var t := ValueAt(json, NUL, s, q);
    assert t.props[..|s.props|] == s.props;
    ValueIsToken(json, max, s, q);
  }

  lemma ValueIsToken(json: string, max: nat, s: Scan, q: nat)
    requires s.p <= q <= |json| && s.phase.Value? && s.p < |json| && Sound(json, max, s)
    ensures var t := ValueAt(json, NUL, s, q);
            IsToken(json, t.props[|s.props|]) && t.props[|s.props|].valueEnd <= t.p
  {
    if CharAt(json, NUL, q) == '"' { FindsFirst(json, q + 1, IsQuote); } else { FindsFirst(json, q, EndsBare); }
  }

  lemma MoveSound(json: string, max: nat, s: Scan, q: nat, phase: Phase, done: bool)
    requires s.p <= q && Sound(json, max, s)
    requires phase == s.phase || (s.phase.CommaOrEnd? && phase.KeyOrEnd? && s.p < q)
             || (s.phase.Colon? && phase.Value?) || (s.phase.ObjectStart? && phase.KeyOrEnd?)
    requires done ==> s.phase.KeyOrEnd? || s.phase.CommaOrEnd?
    ensures Sound(json, max, s.(p := q, phase := phase, done := done))
  {
  }

  lemma StepSound(json: string, max: nat, s: Scan)
    requires s.p < |json| && !s.done && Sound(json, max, s)
    ensures Sound(json, max, Step(json, NUL, max, s))
  {
    var q, t := SkipUntil(json, s.p, NotSpace), Step(json, NUL, max, s);
    if s.phase.KeyOrEnd? && CharAt(json, NUL, q) == '"' {
      KeySound(json, max, s, q);
    } else if s.phase.Value? {
      ValueSound(json, max, s, q);
    } else {
      MoveSound(json, max, s, t.p, t.phase, t.done);
    }
  }

  lemma {:induction false} ParseSound(json: string, max: nat, s: Scan)
    requires Sound(json, max, s)
    ensures var props := Parse(json, NUL, max, s);
            && |props| <= max && Ordered(props)
            && forall i :: 0 <= i < |props| ==> IsToken(json, props[i])
    decreases Left(json, s), if s.phase.Value? then 1 else 0
  {
    if !s.done && s.p < |json| {
      StepSound(json, max, s);
      ParseSound(json, max, Step(json, NUL, max, s));
    }
  }

  /** With NUL behind the text a value is found to begin where the text ends: it is missing. */
  predicate ValueMissing(json: string, max: nat) {
    exists i :: 0 <= i < |Parse(json, NUL, max, START)| && Parse(json, NUL, max, START)[i].valueBegin == |json|
  }

  /**
   On any input at all the result has at most max properties, and their spans follow one another without
   overlap. They lie in the text, and delimit a quoted key and a quoted or bare value each, if and only if the
   character behind the text is not a quote or the text does not end where a value is expected.
   */
  lemma AnyInputIsSafe(json: string, behind: char, max: nat)
    ensures var props := Parse(json, behind, max, START);
            && |props| <= max && Ordered(props)
            && ((forall i :: 0 <= i < |props| ==> IsToken(json, props[i]))
                <==> behind != '"' || !ValueMissing(json, max))
  {
    BehindMatters(json, behind, max, START);
    ParseSound(json, max, START);
    LengthenedTokens(json, Parse(json, NUL, max, START));
  }

  lemma LengthenedTokens(json: string, found: seq<Property>)
    requires Ordered(found) && forall i :: 0 <= i < |found| ==> IsToken(json, found[i])
    ensures var props := Lengthened(json, found);
            && |props| == |found| && Ordered(props)
            && ((forall i :: 0 <= i < |props| ==> IsToken(json, props[i]))
                <==> !exists i :: 0 <= i < |found| && found[i].valueBegin == |json|)
  {
    OnlyLastMissing(json, found);
    var props, last := Lengthened(json, found), |found| - 1;
    if found != [] && found[last].valueBegin == |json| { assert !IsToken(json, props[last]); }
  }

  lemma OnlyLastMissing(json: string, found: seq<Property>)
    requires Ordered(found) && forall i :: 0 <= i < |found| ==> IsToken(json, found[i])
    ensures forall i :: 0 <= i < |found| - 1 ==> found[i].valueBegin < |json|
  {
    forall i | 0 <= i < |found| - 1 ensures found[i].valueBegin < |json| {
      assert IsToken(json, found[i]) && IsToken(json, found[i + 1]);
    }
  }

  /** A text that ends where a value is expected: with a quote behind it, its value ends beyond it. */
  lemma MissingValueOverruns()
    ensures Parse("{\"\": ", '"', 1, START) == [Property(2, 2, 5, 6)]
  {
  }
}
