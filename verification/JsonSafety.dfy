/** Which texts and which characters behind them let the scan of geekopen.cpp return spans outside the text. */
module JsonSafety {
  import opened JsonScanner
  import opened JsonRoundTrip

  /** A text that ends in blanks where a value is expected: members, each with a comma, and the front of one more. */
  datatype Dangling = Dangling(lead: string, members: seq<Member>, last: Member)

  predicate DanglingOk(d: Dangling, max: nat) {
    && Lacks(d.lead, Opens) && (forall m :: m in d.members ==> MemberOk(m)) && |d.members| < max
    && KeyPartOk(d.last) && d.last.beforeValue != []
  }

  function OpenText(ms: seq<Member>, last: Member): string {
    if ms == [] then KeyPartText(last, last.beforeValue)
    else MemberText(ms[0]) + ([','] + OpenText(ms[1..], last))
  }

  function DanglingText(d: Dangling): string { d.lead + (['{'] + OpenText(d.members, d.last)) }

  // ---------------------------------------------------------------- such a text lacks its value

  predicate OpenAt(json: string, off: nat, ms: seq<Member>, last: Member)
    decreases |ms|
  {
    if ms == [] then
      var blanks := MemberSpan(last, off).valueBegin - |last.beforeValue|;
      KeyPartAt(json, off, last) && Occurs(json, blanks, last.beforeValue) && blanks + |last.beforeValue| == |json|
    else
      var end := MemberEnd(ms[0], off);
      MemberAt(json, off, ms[0]) && CharIs(json, end, ',') && OpenAt(json, end + 1, ms[1..], last)
  }

  /** The same but for the end of the text. */
  predicate PartsAt(json: string, off: nat, ms: seq<Member>, last: Member)
    decreases |ms|
  {
    if ms == [] then
      var blanks := MemberSpan(last, off).valueBegin - |last.beforeValue|;
      KeyPartAt(json, off, last) && Occurs(json, blanks, last.beforeValue)
    else
      var end := MemberEnd(ms[0], off);
      MemberAt(json, off, ms[0]) && CharIs(json, end, ',') && PartsAt(json, end + 1, ms[1..], last)
  }

  function OpenEnd(off: nat, ms: seq<Member>, last: Member): nat
    decreases |ms|
  {
    if ms == [] then MemberSpan(last, off).valueBegin else OpenEnd(MemberEnd(ms[0], off) + 1, ms[1..], last)
  }

  lemma {:induction false} PartsPlaced(json: string, off: nat, ms: seq<Member>, last: Member)
    requires Occurs(json, off, OpenText(ms, last))
    ensures PartsAt(json, off, ms, last)
    decreases |ms|
  {
    if ms == [] {
      KeyPartPlaced(json, off, last, last.beforeValue);
    } else {
      var end := NextMemberPlaced(json, off, ms[0], OpenText(ms[1..], last));
      PartsPlaced(json, end + 1, ms[1..], last);
    }
  }

  lemma {:induction false} OpenLength(off: nat, ms: seq<Member>, last: Member)
    ensures off + |OpenText(ms, last)| == OpenEnd(off, ms, last)
    decreases |ms|
  {
    if ms != [] {
      TextLength(ms[0]);
      OpenLength(MemberEnd(ms[0], off) + 1, ms[1..], last);
    }
  }

  lemma {:induction false} PartsUpToEnd(json: string, off: nat, ms: seq<Member>, last: Member)
    requires PartsAt(json, off, ms, last) && OpenEnd(off, ms, last) == |json|
    ensures OpenAt(json, off, ms, last)
    decreases |ms|
  {
    if ms != [] { PartsUpToEnd(json, MemberEnd(ms[0], off) + 1, ms[1..], last); }
  }

  predicate LastMissing(json: string, props: seq<Property>) {
    props != [] && props[|props| - 1].valueBegin == |json|
  }

  lemma BlanksScanned(json: string, max: nat, s: Scan, blanks: string)
    requires s.phase.Value? && !s.done && Lacks(blanks, NotSpace) && blanks != []
    requires Occurs(json, s.p, blanks) && s.p + |blanks| == |json|
    ensures LastMissing(json, Parse(json, NUL, max, s))
  {
    OccursSlice(json, s.p, blanks);
    FindsFirst(json, s.p, NotSpace);
    forall i | s.p <= i < |json| ensures !NotSpace(json[i]) { assert json[i] == blanks[i - s.p]; }
    assert SkipUntil(json, |json|, EndsBare) == |json|;
  }

  lemma {:induction false} OpenScanned(json: string, max: nat, s: Scan, ms: seq<Member>, last: Member)
    requires (forall m :: m in ms ==> MemberOk(m)) && KeyPartOk(last) && last.beforeValue != []
    requires s.phase.KeyOrEnd? && !s.done && |s.props| + |ms| < max && OpenAt(json, s.p, ms, last)
    ensures LastMissing(json, Parse(json, NUL, max, s))
    decreases |ms|
  {
    if ms == [] {
      var t := KeyScanned(json, NUL, max, s, last);
      BlanksScanned(json, max, t, last.beforeValue);
    } else {
      var t := NextScanned(json, NUL, max, s, ms[0]);
      OpenScanned(json, max, t, ms[1..], last);
    }
  }

  lemma BraceScanned(json: string, max: nat, lead: string)
    requires Lacks(lead, Opens) && Occurs(json, 0, lead) && CharIs(json, |lead|, '{')
    ensures Parse(json, NUL, max, START) == Parse(json, NUL, max, START.(p := |lead| + 1, phase := KeyOrEnd))
  {
    PadAt(json, NUL, max, START, lead);
    assert SkipUntil(json, |lead|, NotSpace) == |lead|;
  }

  lemma LeadPlaced(json: string, lead: string, body: string)
    requires json == lead + (['{'] + body)
    ensures Occurs(json, 0, lead) && CharIs(json, |lead|, '{')
    ensures Occurs(json, |lead| + 1, body) && |lead| + 1 + |body| == |json|
  {
    assert [] + json == json;
    OccursItself([], json);
    OccursConcat(json, 0, lead, ['{'] + body);
    OccursCons(json, |lead|, '{', body);
  }

  lemma DanglingPlaced(json: string, d: Dangling)
    requires json == DanglingText(d)
    ensures Occurs(json, 0, d.lead) && CharIs(json, |d.lead|, '{') && OpenAt(json, |d.lead| + 1, d.members, d.last)
  {
    var body := OpenText(d.members, d.last);
    LeadPlaced(json, d.lead, body);
    PartsPlaced(json, |d.lead| + 1, d.members, d.last);
    OpenLength(|d.lead| + 1, d.members, d.last);
    PartsUpToEnd(json, |d.lead| + 1, d.members, d.last);
  }

  lemma DanglingMisses(json: string, max: nat, d: Dangling)
    requires DanglingOk(d, max) && json == DanglingText(d)
    ensures ValueMissing(json, max)
  {
    DanglingPlaced(json, d);
    BraceScanned(json, max, d.lead);
    OpenScanned(json, max, START.(p := |d.lead| + 1, phase := KeyOrEnd), d.members, d.last);
  }

  // ---------------------------------------------------------------- and no other text does

  /** Where nothing concerns the phase up to the end of the text, nothing more is found. */
  lemma {:induction false} PadToEnd(json: string, max: nat, s: Scan)
    requires !s.phase.Value? && !s.done
    requires forall i :: s.p <= i < |json| ==> !Concerns(s.phase, json[i])
    ensures Parse(json, NUL, max, s) == s.props
    decreases |json| - s.p
  {
    if s.p < |json| {
      var w := SkipUntil(json, s.p, NotSpace);
      if w < |json| { assert !Concerns(s.phase, json[w]); }
      assert Step(json, NUL, max, s) == s.(p := w + 1);
      PadToEnd(json, max, s.(p := w + 1));
    }
  }

  lemma SliceLacks(json: string, a: nat, b: nat, stop: char -> bool)
    requires a <= b <= |json| && forall i :: a <= i < b ==> !stop(json[i])
    ensures Lacks(json[a..b], stop) && Occurs(json, a, json[a..b])
  {
    SliceOccurs(json, a, b);
  }

  lemma {:induction false} SliceOccurs(json: string, a: nat, b: nat)
    requires a <= b <= |json|
    ensures Occurs(json, a, json[a..b])
    decreases b - a
  {
    if a < b {
      SliceOccurs(json, a + 1, b);
      assert json[a..b][1..] == json[a + 1..b];
    }
  }

  /** The pad of the key: nothing more is found, or a key starts at k. */
  lemma SplitPad(json: string, max: nat, s: Scan) returns (k: nat, more: bool)
    requires s.phase.KeyOrEnd? && !s.done && s.p <= |json|
    ensures !more ==> Parse(json, NUL, max, s) == s.props
    ensures more ==>
              && s.p <= k && CharIs(json, k, '"') && |s.props| < max && Lacks(json[s.p..k], StartsKey)
              && Parse(json, NUL, max, s) == Parse(json, NUL, max, s.(p := k))
  {
    k := SkipUntil(json, s.p, StartsKey);
    FindsFirst(json, s.p, StartsKey);
    SliceLacks(json, s.p, k, StartsKey);
    more := k < |json| && json[k] == '"' && |s.props| < max;
    if k == |json| {
      PadToEnd(json, max, s);
    } else {
      PadSkipped(json, NUL, max, s, k);
      assert SkipUntil(json, k, NotSpace) == k;
    }
  }

  /** From the opening quote k of a key to its end, if it has one. */
  lemma SplitKey(json: string, max: nat, s: Scan, k: nat) returns (ke: nat, t: Scan, more: bool)
    requires s.phase.KeyOrEnd? && !s.done && |s.props| < max && s.p == k && CharIs(json, k, '"')
    ensures !more ==> Parse(json, NUL, max, s) == s.props
    ensures more ==>
              && k < ke && CharIs(json, ke, '"') && Lacks(json[k + 1..ke], IsQuote)
              && t == Scan(ke + 1, Colon, s.props, k + 1, ke, false)
              && Parse(json, NUL, max, s) == Parse(json, NUL, max, t)
  {
    ke := SkipUntil(json, k + 1, IsQuote);
    FindsFirst(json, k + 1, IsQuote);
    SliceLacks(json, k + 1, ke, IsQuote);
    StepAtKey(json, NUL, max, s, ke);
    t, more := Scan(ke + 1, Colon, s.props, k + 1, ke, false), ke < |json|;
  }

  /** From there to the blanks behind the colon, if there is a colon with anything behind it. */
  lemma SplitColon(json: string, max: nat, s: Scan) returns (colon: nat, t: Scan, more: bool)
    requires s.phase.Colon? && !s.done && s.p <= |json|
    ensures !more ==> Parse(json, NUL, max, s) == s.props
    ensures more ==>
              && s.p <= colon < |json| - 1 && CharIs(json, colon, ':') && Lacks(json[s.p..colon], IsColon)
              && t == s.(p := colon + 1, phase := Value) && Parse(json, NUL, max, s) == Parse(json, NUL, max, t)
  {
    colon := SkipUntil(json, s.p, IsColon);
    FindsFirst(json, s.p, IsColon);
    SliceLacks(json, s.p, colon, IsColon);
    t, more := s.(p := colon + 1, phase := Value), colon + 1 < |json|;
    if colon == |json| {
      PadToEnd(json, max, s);
    } else {
      PadSkipped(json, NUL, max, s, colon);
      StepAtColon(json, NUL, max, s.(p := colon));
    }
  }

  predicate LiteralOk(m: Literal) {
    match m
    case Quoted(text) => Lacks(text, IsQuote)
    case Bare(text) => Lacks(text, EndsBare) && (text != [] ==> !IsSpace(text[0]) && text[0] != '"')
  }

  /** The literal at v, which ends at after, if it ends. */
  lemma LiteralAt(json: string, v: nat) returns (m: Literal, after: nat)
    requires v < |json| && NotSpace(json[v])
    ensures after == if json[v] == '"' then SkipUntil(json, v + 1, IsQuote) + 1 else SkipUntil(json, v, EndsBare)
    ensures v <= after
    ensures after <= |json| ==>
              && ValueAtPlace(json, v, m) && LiteralOk(m) && v + |m.text| + (if m.Quoted? then 2 else 0) == after
              && (m.Bare? ==> after == SkipUntil(json, after, EndsBare))
  {
    if json[v] == '"' {
      var ve := SkipUntil(json, v + 1, IsQuote);
      FindsFirst(json, v + 1, IsQuote);
      SliceLacks(json, v + 1, ve, IsQuote);
      m, after := Quoted(json[v + 1..ve]), ve + 1;
    } else {
      after := SkipUntil(json, v, EndsBare);
      FindsFirst(json, v, EndsBare);
      SliceLacks(json, v, after, EndsBare);
      m := Bare(json[v..after]);
    }
  }

  /** From the start v of a value to the comma behind it, if there is one. */
  lemma SplitValue(json: string, max: nat, t: Scan, v: nat)
    returns (m: Literal, after: nat, e: nat, u: Scan, more: bool)
    requires t.phase.Value? && !t.done && t.p <= v < |json| && v == SkipUntil(json, t.p, NotSpace)
    requires BeginsInside(json, t.props)
    ensures !more ==> BeginsInside(json, Parse(json, NUL, max, t))
    ensures more ==>
              && v <= after <= e && CharIs(json, e, ',') && ValueAtPlace(json, v, m)
              && v + |m.text| + (if m.Quoted? then 2 else 0) == after && Occurs(json, after, json[after..e])
              && Lacks(json[after..e], EndsBare) && LiteralOk(m) && (m.Bare? ==> after == e)
              && u.p == e + 1 && u.phase.KeyOrEnd? && !u.done && |u.props| == |t.props| + 1
              && BeginsInside(json, u.props) && Parse(json, NUL, max, t) == Parse(json, NUL, max, u)
  {
    FindsFirst(json, t.p, NotSpace);
    m, after := LiteralAt(json, v);
    u := ValueAt(json, NUL, t, v);
    e, more := after, false;
    assert Parse(json, NUL, max, t) == Parse(json, NUL, max, u) && u.p == after;
    if after <= |json| {
      e := SkipUntil(json, after, EndsBare);
      FindsFirst(json, after, EndsBare);
      SliceLacks(json, after, e, EndsBare);
      u, more := CommaOrNot(json, max, u, e);
    }
  }

  lemma CommaOrNot(json: string, max: nat, s: Scan, e: nat) returns (u: Scan, more: bool)
    requires s.phase.CommaOrEnd? && !s.done && s.p <= e <= |json| && e == SkipUntil(json, s.p, EndsBare)
    ensures !more ==> Parse(json, NUL, max, s) == s.props
    ensures more ==> CharIs(json, e, ',') && u == s.(p := e + 1, phase := KeyOrEnd)
                     && Parse(json, NUL, max, s) == Parse(json, NUL, max, u)
  {
    FindsFirst(json, s.p, EndsBare);
    u, more := s, e < |json| && json[e] == ',';
    if e == |json| {
      PadToEnd(json, max, s);
    } else {
      PadSkipped(json, NUL, max, s, e);
      if more {
        u := StepAtComma(json, NUL, max, s.(p := e));
      } else {
        StepAtBrace(json, NUL, max, s.(p := e));
      }
    }
  }

  lemma PlacedFront(json: string, p: nat, m: Member, k: nat, ke: nat, colon: nat)
    requires Occurs(json, p, m.beforeKey) && p + |m.beforeKey| == k && CharIs(json, k, '"')
    requires Occurs(json, k + 1, m.key) && k + 1 + |m.key| == ke && CharIs(json, ke, '"')
    requires Occurs(json, ke + 1, m.beforeColon) && ke + 1 + |m.beforeColon| == colon && CharIs(json, colon, ':')
    ensures KeyPartAt(json, p, m) && MemberSpan(m, p).valueBegin == colon + 1 + |m.beforeValue|
  {
  }

  lemma FrontAt(json: string, p: nat, k: nat, ke: nat, colon: nat) returns (m: Member, v: nat)
    requires p <= k < ke < colon < |json| - 1
    requires json[k] == '"' && json[ke] == '"' && json[colon] == ':'
    requires Lacks(json[p..k], StartsKey) && Lacks(json[k + 1..ke], IsQuote) && Lacks(json[ke + 1..colon], IsColon)
    ensures colon < v <= |json| && v == SkipUntil(json, colon + 1, NotSpace) && |m.beforeValue| == v - colon - 1
    ensures FrontPlaced(json, p, m, v)
  {
    v := SkipUntil(json, colon + 1, NotSpace);
    FindsFirst(json, colon + 1, NotSpace);
    SliceLacks(json, colon + 1, v, NotSpace);
    m := Member(json[p..k], json[k + 1..ke], json[ke + 1..colon], json[colon + 1..v], Bare(""), "");
    SliceOccurs(json, p, k);
    SliceOccurs(json, k + 1, ke);
    SliceOccurs(json, ke + 1, colon);
    PlacedFront(json, p, m, k, ke, colon);
  }

  /** The front of a member that is placed at p, with its value at v. */
  predicate FrontPlaced(json: string, p: nat, m: Member, v: nat) {
    && KeyPartOk(m) && KeyPartAt(json, p, m) && MemberSpan(m, p).valueBegin == v
    && Occurs(json, v - |m.beforeValue|, m.beforeValue)
  }

  /** The front of a member at the pad of s, up to its value at v; or no value is missing. */
  lemma SplitFront(json: string, max: nat, s: Scan) returns (m: Member, t: Scan, v: nat, more: bool)
    requires s.phase.KeyOrEnd? && !s.done && s.p <= |json|
    ensures !more ==> Parse(json, NUL, max, s) == s.props
    ensures more ==>
              && s.p < t.p <= v <= |json| && t.p < |json| && v == SkipUntil(json, t.p, NotSpace)
              && |m.beforeValue| == v - t.p && |s.props| < max && FrontPlaced(json, s.p, m, v)
              && t.phase.Value? && !t.done && t.props == s.props && Parse(json, NUL, max, s) == Parse(json, NUL, max, t)
  {
    var k, ke, colon;
    v, t, m := 0, s, Member("", "", "", "", Bare(""), "");
    k, more := SplitPad(json, max, s);
    if more {
      ke, t, more := SplitKey(json, max, s.(p := k), k);
      if more {
        colon, t, more := SplitColon(json, max, t);
        if more { m, v := FrontAt(json, s.p, k, ke, colon); }
      }
    }
  }

  /** From a place where a key is expected on: the text is open, or no value is missing. */
  lemma {:induction false} Decompose(json: string, max: nat, s: Scan)
    returns (open: bool, ms: seq<Member>, last: Member)
    requires s.phase.KeyOrEnd? && !s.done && s.p <= |json| && BeginsInside(json, s.props)
    ensures !open ==> BeginsInside(json, Parse(json, NUL, max, s))
    ensures open ==>
              && (forall m :: m in ms ==> MemberOk(m)) && |s.props| + |ms| < max
              && KeyPartOk(last) && last.beforeValue != [] && OpenAt(json, s.p, ms, last)
    decreases |json| - s.p
  {
    var t, v, front;
    last, t, v, front := SplitFront(json, max, s);
    open, ms := front && v == |json|, [];
    if front && !open { open, ms, last := DecomposeValue(json, max, s.p, t, v, last); }
  }

  lemma {:induction false} DecomposeValue(json: string, max: nat, p: nat, t: Scan, v: nat, front: Member)
    returns (open: bool, ms: seq<Member>, last: Member)
    requires t.phase.Value? && !t.done && p < t.p <= v < |json| && v == SkipUntil(json, t.p, NotSpace)
    requires BeginsInside(json, t.props) && |t.props| < max && FrontPlaced(json, p, front, v)
    ensures !open ==> BeginsInside(json, Parse(json, NUL, max, t))
    ensures open ==>
              && (forall m :: m in ms ==> MemberOk(m)) && |t.props| + |ms| < max
              && KeyPartOk(last) && last.beforeValue != [] && OpenAt(json, p, ms, last)
    decreases |json| - v
  {
    open, ms, last := false, [], front;
    var value, after, e, u, more := SplitValue(json, max, t, v);
    if more {
      open, ms, last := Decompose(json, max, u);
      if open {
        ms := Prepended(json, p, front, value, v, after, e, ms, last);
      }
    }
  }

  lemma Prepended(
      json: string, p: nat, front: Member, value: Literal, v: nat, after: nat, e: nat, rest: seq<Member>, last: Member)
    returns (ms: seq<Member>)
    requires v <= after <= e && CharIs(json, e, ',') && FrontPlaced(json, p, front, v)
    requires ValueAtPlace(json, v, value) && v + |value.text| + (if value.Quoted? then 2 else 0) == after
    requires LiteralOk(value) && Lacks(json[after..e], EndsBare) && Occurs(json, after, json[after..e])
    requires value.Bare? ==> after == e
    requires OpenAt(json, e + 1, rest, last) && forall x :: x in rest ==> MemberOk(x)
    ensures |ms| == |rest| + 1 && OpenAt(json, p, ms, last) && forall x :: x in ms ==> MemberOk(x)
  {
    var m := WholeMember(json, p, front, value, v, after, e);
    ms := OpenCons(json, p, m, e, rest, last);
  }

  lemma OpenCons(json: string, p: nat, m: Member, e: nat, rest: seq<Member>, last: Member) returns (ms: seq<Member>)
    requires MemberOk(m) && forall x :: x in rest ==> MemberOk(x)
    requires MemberAt(json, p, m) && MemberEnd(m, p) == e && CharIs(json, e, ',') && OpenAt(json, e + 1, rest, last)
    ensures |ms| == |rest| + 1 && OpenAt(json, p, ms, last) && forall x :: x in ms ==> MemberOk(x)
  {
    ms := [m] + rest;
    assert ms[1..] == rest;
  }

  lemma WholeMember(json: string, p: nat, front: Member, value: Literal, v: nat, after: nat, e: nat) returns (m: Member)
    requires v <= after <= e && CharIs(json, e, ',') && FrontPlaced(json, p, front, v)
    requires ValueAtPlace(json, v, value) && v + |value.text| + (if value.Quoted? then 2 else 0) == after
    requires LiteralOk(value) && Lacks(json[after..e], EndsBare) && Occurs(json, after, json[after..e])
    requires value.Bare? ==> after == e
    ensures MemberOk(m) && MemberAt(json, p, m) && MemberEnd(m, p) == e
  {
    m := front.(value := value, afterValue := json[after..e]);
  }

  lemma PieceAt(json: string, at: nat, text: string, c: char)
    requires Occurs(json, at, text) && CharIs(json, at + |text|, c)
    ensures json[at..] == text + ([c] + json[at + |text| + 1..])
  {
    OccursSlice(json, at, text);
    assert json[at + |text|..] == [c] + json[at + |text| + 1..];
    assert json[at..] == json[at..at + |text|] + json[at + |text|..];
  }

  lemma KeyPartIsText(json: string, p: nat, m: Member)
    requires KeyPartAt(json, p, m)
    ensures var colon := MemberSpan(m, p).keyEnd + 1 + |m.beforeColon|;
            colon < |json| && json[p..] == KeyPartText(m, json[colon + 1..])
  {
    var r := MemberSpan(m, p);
    PieceAt(json, p, m.beforeKey, '"');
    PieceAt(json, r.keyBegin, m.key, '"');
    PieceAt(json, r.keyEnd + 1, m.beforeColon, ':');
  }

  lemma ValueTextAt(json: string, v: nat, m: Literal)
    requires ValueAtPlace(json, v, m)
    ensures var after := v + |m.text| + (if m.Quoted? then 2 else 0);
            after <= |json| && json[v..] == ValueText(m) + json[after..]
  {
    if m.Quoted? {
      var ve := v + 1 + |m.text|;
      OccursSlice(json, v + 1, m.text);
      assert json[v..] == ['"'] + json[v + 1..ve] + ['"'] + json[ve + 1..];
      assert ['"'] + m.text + ['"'] == ValueText(m);
    } else {
      OccursSlice(json, v, m.text);
    }
  }

  lemma KeyPartAssoc(m: Member, x: string, y: string)
    ensures KeyPartText(m, x + y) == KeyPartText(m, x) + y
  {
  }

  lemma Joined(a: string, b: string, c: string, d: string)
    ensures a + (b + (c + d)) == (a + (b + c)) + d
  {
  }

  lemma ValuePartText(json: string, p: nat, m: Member, tail: string)
    requires MemberAt(json, p, m) && MemberEnd(m, p) <= |json| && json[MemberEnd(m, p)..] == tail
    ensures var blanks := MemberSpan(m, p).valueBegin - |m.beforeValue|;
            blanks <= |json| && json[blanks..] == (m.beforeValue + (ValueText(m.value) + m.afterValue)) + tail
  {
    var v, after := MemberSpan(m, p).valueBegin, MemberEnd(m, p) - |m.afterValue|;
    var blanks := v - |m.beforeValue|;
    OccursSlice(json, blanks, m.beforeValue);
    ValueTextAt(json, v, m.value);
    OccursSlice(json, after, m.afterValue);
    assert json[after..] == m.afterValue + tail;
    assert json[blanks..] == m.beforeValue + json[v..];
    Joined(m.beforeValue, ValueText(m.value), m.afterValue, tail);
  }

  lemma MemberTextAt(json: string, p: nat, m: Member, tail: string)
    requires MemberAt(json, p, m) && MemberEnd(m, p) <= |json| && json[MemberEnd(m, p)..] == tail
    ensures json[p..] == MemberText(m) + tail
  {
    KeyPartIsText(json, p, m);
    ValuePartText(json, p, m, tail);
    KeyPartAssoc(m, m.beforeValue + (ValueText(m.value) + m.afterValue), tail);
  }

  lemma FirstIsText(json: string, off: nat, m: Member, tail: string)
    requires MemberAt(json, off, m) && CharIs(json, MemberEnd(m, off), ',') && json[MemberEnd(m, off) + 1..] == tail
    ensures json[off..] == MemberText(m) + ([','] + tail)
  {
    assert json[MemberEnd(m, off)..] == [','] + tail;
    MemberTextAt(json, off, m, [','] + tail);
  }

  lemma LastIsText(json: string, off: nat, last: Member)
    requires OpenAt(json, off, [], last)
    ensures off <= |json| && json[off..] == KeyPartText(last, last.beforeValue)
  {
    KeyPartIsText(json, off, last);
    OccursSlice(json, |json| - |last.beforeValue|, last.beforeValue);
  }

  /** What is placed as an open text is one. */
  lemma {:induction false} OpenIsText(json: string, off: nat, ms: seq<Member>, last: Member)
    requires OpenAt(json, off, ms, last) && off <= |json|
    ensures json[off..] == OpenText(ms, last)
    decreases |ms|
  {
    if ms == [] {
      LastIsText(json, off, last);
    } else {
      var end := MemberEnd(ms[0], off);
      OpenIsText(json, end + 1, ms[1..], last);
      FirstIsText(json, off, ms[0], OpenText(ms[1..], last));
    }
  }

  lemma MissingDangles(json: string, max: nat) returns (d: Dangling)
    requires ValueMissing(json, max)
    ensures DanglingOk(d, max) && json == DanglingText(d)
  {
    var brace := SkipUntil(json, 0, Opens);
    FindsFirst(json, 0, Opens);
    SliceLacks(json, 0, brace, Opens);
    if brace == |json| { PadToEnd(json, max, START); }
    PadSkippedTo(json, max, brace);
    var open, ms, last := Decompose(json, max, START.(p := brace + 1, phase := KeyOrEnd));
    d := Dangling(json[..brace], ms, last);
    OpenIsText(json, brace + 1, ms, last);
    DanglingIs(json, brace, d);
  }

  lemma DanglingIs(json: string, brace: nat, d: Dangling)
    requires brace < |json| && json[brace] == '{' && d.lead == json[..brace]
    requires json[brace + 1..] == OpenText(d.members, d.last)
    ensures json == DanglingText(d)
  {
    assert json[brace..] == ['{'] + json[brace + 1..];
    assert json == json[..brace] + json[brace..];
  }

  lemma PadSkippedTo(json: string, max: nat, brace: nat)
    requires brace < |json| && json[brace] == '{' && forall i :: 0 <= i < brace ==> !Opens(json[i])
    ensures Parse(json, NUL, max, START) == Parse(json, NUL, max, START.(p := brace + 1, phase := KeyOrEnd))
  {
    PadSkipped(json, NUL, max, START, brace);
    assert SkipUntil(json, brace, NotSpace) == brace;
  }

  /** A value is missing at the end of a text if and only if the text is a dangling one. */
  lemma ValueMissingExactly(json: string, max: nat)
    ensures ValueMissing(json, max) <==> exists d :: DanglingOk(d, max) && json == DanglingText(d)
  {
    if ValueMissing(json, max) { var d := MissingDangles(json, max); }
    if d :| DanglingOk(d, max) && json == DanglingText(d) { DanglingMisses(json, max, d); }
  }

  predicate AllTokens(json: string, props: seq<Property>) {
    forall i :: 0 <= i < |props| ==> IsToken(json, props[i])
  }

  /**
   All spans lie in the text and are what they should be if and only if the character behind it is no quote, or
   the text is not one that ends in blanks where a value is expected and there is room.
   */
  lemma SafeExactly(json: string, behind: char, max: nat)
    ensures AllTokens(json, Parse(json, behind, max, START))
            <==> behind != '"' || !exists d :: DanglingOk(d, max) && json == DanglingText(d)
  {
    AnyInputIsSafe(json, behind, max);
    ValueMissingExactly(json, max);
  }

  /** All texts are safe with a character behind them if and only if that is no quote, or nothing is asked for. */
  lemma SafeForAllTexts(behind: char, max: nat)
    ensures (forall json :: AllTokens(json, Parse(json, behind, max, START))) <==> behind != '"' || max == 0
  {
    if behind != '"' || max == 0 {
      forall json ensures AllTokens(json, Parse(json, behind, max, START)) { SafeExactly(json, behind, max); }
    } else {
      var d := Dangling("", [], Member("", "", "", " ", Bare(""), ""));
      assert DanglingOk(d, max);
      SafeExactly(DanglingText(d), behind, max);
      assert !AllTokens(DanglingText(d), Parse(DanglingText(d), behind, max, START));
    }
  }

  /** Such a text ends in a blank, and the last character that is none is a colon. */
  lemma DanglingEndsInColon(json: string, d: Dangling, max: nat)
    requires DanglingOk(d, max) && json == DanglingText(d)
    ensures var blanks := |d.last.beforeValue|;
            && blanks < |json| && json[|json| - blanks - 1] == ':'
            && forall i :: |json| - blanks <= i < |json| ==> IsSpace(json[i])
  {
    DanglingPlaced(json, d);
    OpenEndsInColon(json, |d.lead| + 1, d.members, d.last);
  }

  lemma {:induction false} OpenEndsInColon(json: string, off: nat, ms: seq<Member>, last: Member)
    requires OpenAt(json, off, ms, last) && Lacks(last.beforeValue, NotSpace)
    ensures var blanks := |last.beforeValue|;
            && blanks < |json| && json[|json| - blanks - 1] == ':'
            && forall i :: |json| - blanks <= i < |json| ==> IsSpace(json[i])
    decreases |ms|
  {
    if ms == [] {
      var begin := |json| - |last.beforeValue|;
      OccursSlice(json, begin, last.beforeValue);
      forall i | begin <= i < |json| ensures IsSpace(json[i]) {
        assert json[i] == last.beforeValue[i - begin] && !NotSpace(last.beforeValue[i - begin]);
      }
    } else {
      OpenEndsInColon(json, MemberEnd(ms[0], off) + 1, ms[1..], last);
    }
  }
}
