/** Printing key/value pairs and scanning the text gives the pairs back, up to the capacity given. */
module JsonRoundTrip {
  import opened JsonScanner

  datatype Literal = Quoted(text: string) | Bare(text: string)

  /** A member with whatever surrounds its tokens. */
  datatype Member = Member(beforeKey: string, key: string, beforeColon: string, beforeValue: string,
                           value: Literal, afterValue: string)

  /** A whole text: something before the brace, members, something after the last brace. */
  datatype Document = Document(lead: string, members: seq<Member>, beforeClose: string, rest: string)

  predicate Opens(c: char) { c == '{' }
  predicate IsColon(c: char) { c == ':' }
  predicate StartsKey(c: char) { c == '"' || c == '}' }

  predicate Lacks(text: string, stop: char -> bool) {
    forall i :: 0 <= i < |text| ==> !stop(text[i])
  }

  predicate KeyPartOk(m: Member) {
    && Lacks(m.beforeKey, StartsKey) && Lacks(m.key, IsQuote) && Lacks(m.beforeColon, IsColon)
    && Lacks(m.beforeValue, NotSpace)
  }

  /** Pads may hold anything that the scanner skips in the phase it is in; a bare value ends its pad. */
  predicate MemberOk(m: Member) {
    && KeyPartOk(m)
    && match m.value
       case Quoted(text) => Lacks(text, IsQuote) && Lacks(m.afterValue, EndsBare)
       case Bare(text) =>
         && Lacks(text, EndsBare) && m.afterValue == []
         && (text != [] ==> !IsSpace(text[0]) && text[0] != '"')
  }

  predicate DocumentOk(d: Document) {
    && Lacks(d.lead, Opens)
    && (forall m :: m in d.members ==> MemberOk(m))
    && Lacks(d.beforeClose, StartsKey)
  }

  function ValueText(v: Literal): string {
    match v
    case Quoted(text) => ['"'] + (text + ['"'])
    case Bare(text) => text
  }

  function KeyPartText(m: Member, tail: string): string {
    m.beforeKey + (['"'] + (m.key + (['"'] + (m.beforeColon + ([':'] + tail)))))
  }

  function MemberText(m: Member): string {
    KeyPartText(m, m.beforeValue + (ValueText(m.value) + m.afterValue))
  }

  /** Members separated by commas and closed by a brace; without members the brace has its own pad. */
  function MembersText(ms: seq<Member>, beforeClose: string): string {
    if ms == [] then beforeClose + ['}']
    else if |ms| == 1 then MemberText(ms[0]) + ['}']
    else MemberText(ms[0]) + ([','] + MembersText(ms[1..], beforeClose))
  }

  function DocumentText(d: Document): string {
    d.lead + (['{'] + (MembersText(d.members, d.beforeClose) + d.rest))
  }

  /** Where the tokens of a member that is printed at off are. A quoted value lacks its closing quote. */
  function MemberSpan(m: Member, off: nat): Property {
    var keyBegin := off + |m.beforeKey| + 1;
    var keyEnd := keyBegin + |m.key|;
    var valueBegin := keyEnd + 1 + |m.beforeColon| + 1 + |m.beforeValue|;
    Property(keyBegin, keyEnd, valueBegin,
             valueBegin + |m.value.text| + if m.value.Quoted? then 1 else 0)
  }

  /** Where the text of a member that is printed at off ends. */
  function MemberEnd(m: Member, off: nat): nat {
    MemberSpan(m, off).valueEnd + (if m.value.Quoted? then 1 else 0) + |m.afterValue|
  }

  function MembersSpans(ms: seq<Member>, off: nat): (r: seq<Property>)
    ensures |r| == |ms|
  {
    if ms == [] then [] else [MemberSpan(ms[0], off)] + MembersSpans(ms[1..], MemberEnd(ms[0], off) + 1)
  }

  // ---------------------------------------------------------------- text at a place

  predicate Occurs(json: string, off: nat, text: string)
    decreases |text|
  {
    if text == [] then off <= |json|
    else off < |json| && json[off] == text[0] && Occurs(json, off + 1, text[1..])
  }

  lemma {:induction false} OccursConcat(json: string, off: nat, a: string, b: string)
    requires Occurs(json, off, a + b)
    ensures Occurs(json, off, a) && Occurs(json, off + |a|, b)
    decreases |a|
  {
    if a == [] {
      assert a + b == b;
    } else {
      assert (a + b)[1..] == a[1..] + b;
      OccursConcat(json, off + 1, a[1..], b);
    }
  }

  lemma OccursCons(json: string, off: nat, c: char, tail: string)
    requires Occurs(json, off, [c] + tail)
    ensures CharIs(json, off, c) && Occurs(json, off + 1, tail)
  {
    assert ([c] + tail)[1..] == tail;
  }

  lemma {:induction false} OccursSlice(json: string, off: nat, text: string)
    requires Occurs(json, off, text)
    ensures off + |text| <= |json| && json[off..off + |text|] == text
    decreases |text|
  {
    if text != [] {
      OccursSlice(json, off + 1, text[1..]);
      assert json[off..off + |text|] == [json[off]] + json[off + 1..off + 1 + |text[1..]|];
    }
  }

  lemma {:induction false} OccursItself(before: string, text: string)
    ensures Occurs(before + text, |before|, text)
    decreases |text|
  {
    if text != [] {
      assert before + text == (before + [text[0]]) + text[1..];
      OccursItself(before + [text[0]], text[1..]);
    }
  }

  predicate CharIs(json: string, p: nat, c: char) { p < |json| && json[p] == c }

  predicate KeyPartAt(json: string, off: nat, m: Member) {
    var r := MemberSpan(m, off);
    && Occurs(json, off, m.beforeKey) && CharIs(json, r.keyBegin - 1, '"')
    && Occurs(json, r.keyBegin, m.key) && CharIs(json, r.keyEnd, '"')
    && Occurs(json, r.keyEnd + 1, m.beforeColon) && CharIs(json, r.keyEnd + 1 + |m.beforeColon|, ':')
  }

  /** The pieces of m stand in json where MemberSpan says they do. */
  predicate MemberAt(json: string, off: nat, m: Member) {
    var r := MemberSpan(m, off);
    && KeyPartAt(json, off, m)
    && Occurs(json, r.valueBegin - |m.beforeValue|, m.beforeValue)
    && ValueAtPlace(json, r.valueBegin, m.value)
    && Occurs(json, r.valueEnd + (if m.value.Quoted? then 1 else 0), m.afterValue)
  }

  predicate ValueAtPlace(json: string, begin: nat, v: Literal) {
    match v
    case Quoted(text) =>
      CharIs(json, begin, '"') && Occurs(json, begin + 1, text) && CharIs(json, begin + 1 + |text|, '"')
    case Bare(text) => Occurs(json, begin, text)
  }

  /** The members stand in json one behind the other, with the closing brace at the end. */
  predicate MembersAt(json: string, off: nat, ms: seq<Member>, beforeClose: string)
    decreases |ms|
  {
    if ms == [] then Occurs(json, off, beforeClose) && CharIs(json, off + |beforeClose|, '}')
    else
      var end := MemberEnd(ms[0], off);
      && MemberAt(json, off, ms[0])
      && CharIs(json, end, if |ms| == 1 then '}' else ',')
      && (|ms| > 1 ==> MembersAt(json, end + 1, ms[1..], beforeClose))
  }

  lemma ValueTextPlaced(json: string, off: nat, v: Literal, tail: string)
    requires Occurs(json, off, ValueText(v) + tail)
    ensures ValueAtPlace(json, off, v)
    ensures Occurs(json, off + |v.text| + (if v.Quoted? then 2 else 0), tail)
  {
    OccursConcat(json, off, ValueText(v), tail);
    if v.Quoted? {
      OccursCons(json, off, '"', v.text + ['"']);
      OccursConcat(json, off + 1, v.text, ['"']);
      assert ['"'] == ['"'] + [];
      OccursCons(json, off + 1 + |v.text|, '"', []);
    }
  }

  lemma KeyPartPlaced(json: string, off: nat, m: Member, tail: string)
    requires Occurs(json, off, KeyPartText(m, tail))
    ensures KeyPartAt(json, off, m)
    ensures Occurs(json, MemberSpan(m, off).valueBegin - |m.beforeValue|, tail)
  {
    var r := MemberSpan(m, off);
    var t3 := m.beforeColon + ([':'] + tail);
    var t2 := m.key + (['"'] + t3);
    OccursConcat(json, off, m.beforeKey, ['"'] + t2);
    OccursCons(json, r.keyBegin - 1, '"', t2);
    OccursConcat(json, r.keyBegin, m.key, ['"'] + t3);
    OccursCons(json, r.keyEnd, '"', t3);
    OccursConcat(json, r.keyEnd + 1, m.beforeColon, [':'] + tail);
    OccursCons(json, r.keyEnd + 1 + |m.beforeColon|, ':', tail);
  }

  lemma MemberTextPlaced(json: string, off: nat, m: Member, tail: string)
    requires Occurs(json, off, MemberText(m) + tail)
    ensures MemberAt(json, off, m) && Occurs(json, MemberEnd(m, off), tail)
  {
    var r, t := MemberSpan(m, off), m.beforeValue + (ValueText(m.value) + m.afterValue);
    OccursConcat(json, off, MemberText(m), tail);
    KeyPartPlaced(json, off, m, t);
    OccursConcat(json, r.valueBegin - |m.beforeValue|, m.beforeValue, ValueText(m.value) + m.afterValue);
    ValueTextPlaced(json, r.valueBegin, m.value, m.afterValue);
    TextLength(m);
  }

  lemma TextLength(m: Member)
    ensures |MemberText(m)| == MemberEnd(m, 0)
  {
  }

  lemma {:induction false} MembersTextPlaced(json: string, off: nat, ms: seq<Member>, beforeClose: string)
    requires Occurs(json, off, MembersText(ms, beforeClose))
    ensures MembersAt(json, off, ms, beforeClose)
    decreases |ms|
  {
    if ms == [] {
      OccursConcat(json, off, beforeClose, ['}']);
      OccursChar(json, off + |beforeClose|, '}');
    } else if |ms| == 1 {
      MemberTextPlaced(json, off, ms[0], ['}']);
      OccursChar(json, MemberEnd(ms[0], off), '}');
    } else {
      var tail := MembersText(ms[1..], beforeClose);
      var end := NextMemberPlaced(json, off, ms[0], tail);
      MembersTextPlaced(json, end + 1, ms[1..], beforeClose);
    }
  }

  lemma OccursChar(json: string, off: nat, c: char)
    requires Occurs(json, off, [c])
    ensures CharIs(json, off, c)
  {
  }

  lemma NextMemberPlaced(json: string, off: nat, m: Member, tail: string) returns (end: nat)
    requires Occurs(json, off, MemberText(m) + ([','] + tail))
    ensures MemberAt(json, off, m) && end == MemberEnd(m, off)
    ensures CharIs(json, end, ',') && Occurs(json, end + 1, tail)
  {
    end := MemberEnd(m, off);
    MemberTextPlaced(json, off, m, [','] + tail);
    OccursCons(json, end, ',', tail);
  }

  lemma DocumentTextPlaced(d: Document)
    ensures var json, brace := DocumentText(d), |d.lead|;
            && Occurs(json, 0, d.lead) && CharIs(json, brace, '{')
            && MembersAt(json, brace + 1, d.members, d.beforeClose)
  {
    var json := DocumentText(d);
    var body := MembersText(d.members, d.beforeClose) + d.rest;
    assert [] + json == json;
    OccursItself([], json);
    OccursConcat(json, 0, d.lead, ['{'] + body);
    OccursCons(json, |d.lead|, '{', body);
    OccursConcat(json, |d.lead| + 1, MembersText(d.members, d.beforeClose), d.rest);
    MembersTextPlaced(json, |d.lead| + 1, d.members, d.beforeClose);
  }

  // ---------------------------------------------------------------- scanning placed text

  /** In every phase but that of values, the scanner skips whatever does not concern it there. */
  predicate Concerns(phase: Phase, c: char) {
    match phase
    case ObjectStart => Opens(c)
    case KeyOrEnd => StartsKey(c)
    case Colon => IsColon(c)
    case Value => true
    case CommaOrEnd => EndsBare(c)
  }

  lemma {:induction false} PadSkipped(json: string, behind: char, max: nat, s: Scan, q: nat)
    requires !s.phase.Value? && !s.done && s.p <= q < |json|
    requires Concerns(s.phase, json[q]) && forall i :: s.p <= i < q ==> !Concerns(s.phase, json[i])
    ensures Parse(json, behind, max, s) == Parse(json, behind, max, s.(p := q))
    decreases q - s.p
  {
    var w := SkipUntil(json, s.p, NotSpace);
    FindsFirst(json, s.p, NotSpace);
    if w < q {
      assert !Concerns(s.phase, json[w]);
      assert Step(json, behind, max, s) == s.(p := w + 1);
      PadSkipped(json, behind, max, s.(p := w + 1), q);
    } else {
      assert w == q;
      assert SkipUntil(json, q, NotSpace) == q;
      assert Step(json, behind, max, s) == Step(json, behind, max, s.(p := q));
    }
  }

  lemma PadAt(json: string, behind: char, max: nat, s: Scan, pad: string)
    requires !s.phase.Value? && !s.done && Occurs(json, s.p, pad) && s.p + |pad| < |json|
    requires Concerns(s.phase, json[s.p + |pad|])
    requires forall i :: 0 <= i < |pad| ==> !Concerns(s.phase, pad[i])
    ensures Parse(json, behind, max, s) == Parse(json, behind, max, s.(p := s.p + |pad|))
  {
    OccursSlice(json, s.p, pad);
    forall i | s.p <= i < s.p + |pad| ensures !Concerns(s.phase, json[i]) {
      assert json[i] == pad[i - s.p];
    }
    PadSkipped(json, behind, max, s, s.p + |pad|);
  }

  lemma FirstStop(json: string, from: nat, text: string, stop: char -> bool)
    requires Occurs(json, from, text) && Lacks(text, stop)
    requires from + |text| < |json| && stop(json[from + |text|])
    ensures SkipUntil(json, from, stop) == from + |text|
  {
    FindsFirst(json, from, stop);
    OccursSlice(json, from, text);
    forall i | from <= i < from + |text| ensures !stop(json[i]) {
      assert json[i] == text[i - from];
    }
  }

  lemma StepAtKey(json: string, behind: char, max: nat, s: Scan, keyEnd: nat)
    requires s.phase.KeyOrEnd? && !s.done && |s.props| < max && CharIs(json, s.p, '"')
    requires SkipUntil(json, s.p + 1, IsQuote) == keyEnd
    ensures Parse(json, behind, max, s)
         == Parse(json, behind, max, Scan(keyEnd + 1, Colon, s.props, s.p + 1, keyEnd, false))
  {
    assert SkipUntil(json, s.p, NotSpace) == s.p;
  }

  lemma StepAtColon(json: string, behind: char, max: nat, s: Scan)
    requires s.phase.Colon? && !s.done && CharIs(json, s.p, ':')
    ensures Parse(json, behind, max, s) == Parse(json, behind, max, s.(p := s.p + 1, phase := Value))
  {
    assert SkipUntil(json, s.p, NotSpace) == s.p;
  }

  lemma ColonScanned(json: string, behind: char, max: nat, s: Scan, pad: string) returns (t: Scan)
    requires s.phase.Colon? && !s.done && Lacks(pad, IsColon)
    requires Occurs(json, s.p, pad) && CharIs(json, s.p + |pad|, ':')
    ensures t == s.(p := s.p + |pad| + 1, phase := Value) && Parse(json, behind, max, s) == Parse(json, behind, max, t)
  {
    PadAt(json, behind, max, s, pad);
    StepAtColon(json, behind, max, s.(p := s.p + |pad|));
    t := s.(p := s.p + |pad| + 1, phase := Value);
  }

  /** From a member's pad to the phase that expects its value. */
  lemma KeyScanned(json: string, behind: char, max: nat, s: Scan, m: Member) returns (t: Scan)
    requires KeyPartOk(m) && s.phase.KeyOrEnd? && !s.done && |s.props| < max
    requires KeyPartAt(json, s.p, m)
    ensures var r := MemberSpan(m, s.p);
            t == Scan(r.valueBegin - |m.beforeValue|, Value, s.props, r.keyBegin, r.keyEnd, false)
    ensures Parse(json, behind, max, s) == Parse(json, behind, max, t)
  {
    var r := MemberSpan(m, s.p);
    PadAt(json, behind, max, s, m.beforeKey);
    FirstStop(json, r.keyBegin, m.key, IsQuote);
    StepAtKey(json, behind, max, s.(p := r.keyBegin - 1), r.keyEnd);
    t := Scan(r.keyEnd + 1, Colon, s.props, r.keyBegin, r.keyEnd, false);
    t := ColonScanned(json, behind, max, t, m.beforeColon);
  }

  function ValueSpan(s: Scan, begin: nat, v: Literal): Property {
    Property(s.keyBegin, s.keyEnd, begin, begin + |v.text| + if v.Quoted? then 1 else 0)
  }

  lemma QuotedScanned(json: string, behind: char, max: nat, s: Scan, pad: string, v: Literal)
    requires v.Quoted? && Lacks(v.text, IsQuote) && Lacks(pad, NotSpace) && s.phase.Value? && !s.done
    requires Occurs(json, s.p, pad) && ValueAtPlace(json, s.p + |pad|, v)
    ensures var span := ValueSpan(s, s.p + |pad|, v);
            Parse(json, behind, max, s)
            == Parse(json, behind, max, s.(p := span.valueEnd + 1, phase := CommaOrEnd, props := s.props + [span]))
  {
    FirstStop(json, s.p, pad, NotSpace);
    FirstStop(json, s.p + |pad| + 1, v.text, IsQuote);
  }

  lemma BareScanned(json: string, behind: char, max: nat, s: Scan, pad: string, v: Literal)
    requires v.Bare? && Lacks(v.text, EndsBare) && Lacks(pad, NotSpace) && s.phase.Value? && !s.done
    requires v.text != [] ==> !IsSpace(v.text[0]) && v.text[0] != '"'
    requires Occurs(json, s.p, pad) && Occurs(json, s.p + |pad|, v.text)
    requires var end := s.p + |pad| + |v.text|; end < |json| && EndsBare(json[end])
    ensures var span := ValueSpan(s, s.p + |pad|, v);
            Parse(json, behind, max, s)
            == Parse(json, behind, max, s.(p := span.valueEnd, phase := CommaOrEnd, props := s.props + [span]))
  {
    var begin := s.p + |pad|;
    if v.text != [] { assert json[begin + 0] == v.text[0]; }
    FirstStop(json, s.p, pad, NotSpace);
    FirstStop(json, begin, v.text, EndsBare);
  }

  /** From the pad before a value to the comma or brace behind it. */
  lemma ValueScanned(json: string, behind: char, max: nat, s: Scan, m: Member, off: nat) returns (t: Scan)
    requires MemberOk(m) && MemberAt(json, off, m) && s.phase.Value? && !s.done
    requires s.p == MemberSpan(m, off).valueBegin - |m.beforeValue|
    requires MemberEnd(m, off) < |json| && EndsBare(json[MemberEnd(m, off)])
    ensures t == s.(p := MemberEnd(m, off), phase := CommaOrEnd,
                    props := s.props + [ValueSpan(s, MemberSpan(m, off).valueBegin, m.value)])
    ensures Parse(json, behind, max, s) == Parse(json, behind, max, t)
  {
    var r := MemberSpan(m, off);
    t := s.(p := r.valueEnd, phase := CommaOrEnd, props := s.props + [ValueSpan(s, r.valueBegin, m.value)]);
    if m.value.Quoted? {
      QuotedScanned(json, behind, max, s, m.beforeValue, m.value);
      t := t.(p := r.valueEnd + 1);
      PadAt(json, behind, max, t, m.afterValue);
      t := t.(p := MemberEnd(m, off));
    } else {
      BareScanned(json, behind, max, s, m.beforeValue, m.value);
    }
  }

  /** A whole member, up to the comma or brace behind it. */
  lemma MemberScanned(json: string, behind: char, max: nat, s: Scan, m: Member) returns (t: Scan)
    requires MemberOk(m) && s.phase.KeyOrEnd? && !s.done && |s.props| < max
    requires MemberAt(json, s.p, m)
    requires MemberEnd(m, s.p) < |json| && EndsBare(json[MemberEnd(m, s.p)])
    ensures t.p == MemberEnd(m, s.p) && t.phase.CommaOrEnd? && !t.done && t.props == s.props + [MemberSpan(m, s.p)]
    ensures Parse(json, behind, max, s) == Parse(json, behind, max, t)
  {
    var v := KeyScanned(json, behind, max, s, m);
    t := ValueScanned(json, behind, max, v, m, s.p);
  }

  /** With no room for another property the scan ends at the next key. */
  lemma FullScanned(json: string, behind: char, max: nat, s: Scan, m: Member)
    requires MemberOk(m) && s.phase.KeyOrEnd? && !s.done && |s.props| == max
    requires MemberAt(json, s.p, m)
    ensures Parse(json, behind, max, s) == s.props
  {
    var quote := s.p + |m.beforeKey|;
    PadAt(json, behind, max, s, m.beforeKey);
    assert SkipUntil(json, quote, NotSpace) == quote;
  }

  lemma NoMembersScanned(json: string, behind: char, max: nat, s: Scan, beforeClose: string)
    requires Lacks(beforeClose, StartsKey) && s.phase.KeyOrEnd? && !s.done
    requires Occurs(json, s.p, beforeClose) && CharIs(json, s.p + |beforeClose|, '}')
    ensures Parse(json, behind, max, s) == s.props
  {
    var close := s.p + |beforeClose|;
    PadAt(json, behind, max, s, beforeClose);
    assert SkipUntil(json, close, NotSpace) == close;
  }

  lemma StepAtComma(json: string, behind: char, max: nat, s: Scan) returns (t: Scan)
    requires s.phase.CommaOrEnd? && !s.done && CharIs(json, s.p, ',')
    ensures t == s.(p := s.p + 1, phase := KeyOrEnd)
    ensures Parse(json, behind, max, s) == Parse(json, behind, max, t)
  {
    t := s.(p := s.p + 1, phase := KeyOrEnd);
    assert SkipUntil(json, s.p, NotSpace) == s.p;
  }

  lemma StepAtBrace(json: string, behind: char, max: nat, s: Scan)
    requires s.phase.CommaOrEnd? && !s.done && CharIs(json, s.p, '}')
    ensures Parse(json, behind, max, s) == s.props
  {
    assert SkipUntil(json, s.p, NotSpace) == s.p;
  }

  function Take<T>(s: seq<T>, n: nat): seq<T> { if n <= |s| then s[..n] else s }

  /** The properties found so far, with the spans of the members that there is room for. */
  function Collected(ms: seq<Member>, off: nat, max: nat, props: seq<Property>): seq<Property> {
    if ms == [] || |props| >= max then props
    else Collected(ms[1..], MemberEnd(ms[0], off) + 1, max, props + [MemberSpan(ms[0], off)])
  }

  lemma {:induction false} RoomTakes(ms: seq<Member>, off: nat, max: nat, props: seq<Property>)
    requires |props| <= max
    ensures Collected(ms, off, max, props) == props + Take(MembersSpans(ms, off), max - |props|)
    decreases |ms|
  {
    if ms != [] && |props| < max {
      RoomTakes(ms[1..], MemberEnd(ms[0], off) + 1, max, props + [MemberSpan(ms[0], off)]);
    }
  }

  lemma LastScanned(json: string, behind: char, max: nat, s: Scan, m: Member)
    requires MemberOk(m) && s.phase.KeyOrEnd? && !s.done && |s.props| < max
    requires MemberAt(json, s.p, m) && CharIs(json, MemberEnd(m, s.p), '}')
    ensures Parse(json, behind, max, s) == s.props + [MemberSpan(m, s.p)]
  {
    var t := MemberScanned(json, behind, max, s, m);
    StepAtBrace(json, behind, max, t);
  }

  lemma NextScanned(json: string, behind: char, max: nat, s: Scan, m: Member) returns (t: Scan)
    requires MemberOk(m) && s.phase.KeyOrEnd? && !s.done && |s.props| < max
    requires MemberAt(json, s.p, m) && CharIs(json, MemberEnd(m, s.p), ',')
    ensures t.p == MemberEnd(m, s.p) + 1 && t.phase.KeyOrEnd? && !t.done && t.props == s.props + [MemberSpan(m, s.p)]
    ensures Parse(json, behind, max, s) == Parse(json, behind, max, t)
  {
    t := MemberScanned(json, behind, max, s, m);
    t := StepAtComma(json, behind, max, t);
  }

  lemma {:induction false} MembersScanned(
      json: string, behind: char, max: nat, s: Scan, ms: seq<Member>, beforeClose: string)
    requires (forall m :: m in ms ==> MemberOk(m)) && Lacks(beforeClose, StartsKey)
    requires s.phase.KeyOrEnd? && !s.done && |s.props| <= max
    requires MembersAt(json, s.p, ms, beforeClose)
    ensures Parse(json, behind, max, s) == Collected(ms, s.p, max, s.props)
    decreases |ms|
  {
    if ms == [] {
      NoMembersScanned(json, behind, max, s, beforeClose);
    } else if |s.props| == max {
      FullScanned(json, behind, max, s, ms[0]);
    } else if |ms| == 1 {
      LastScanned(json, behind, max, s, ms[0]);
    } else {
      var t := NextScanned(json, behind, max, s, ms[0]);
      MembersScanned(json, behind, max, t, ms[1..], beforeClose);
    }
  }

  /** Scanning a printed document gives the spans of its members, in order, as many as there is room for. */
  lemma RoundTrip(d: Document, behind: char, max: nat)
    requires DocumentOk(d)
    ensures Parse(DocumentText(d), behind, max, START) == Take(MembersSpans(d.members, |d.lead| + 1), max)
  {
    DocumentTextPlaced(d);
    DocumentScanned(DocumentText(d), behind, max, d);
    RoomTakes(d.members, |d.lead| + 1, max, []);
  }

  lemma DocumentScanned(json: string, behind: char, max: nat, d: Document)
    requires DocumentOk(d) && Occurs(json, 0, d.lead) && CharIs(json, |d.lead|, '{')
    requires MembersAt(json, |d.lead| + 1, d.members, d.beforeClose)
    ensures Parse(json, behind, max, START) == Collected(d.members, |d.lead| + 1, max, [])
  {
    var brace := |d.lead|;
    PadAt(json, behind, max, START, d.lead);
    assert SkipUntil(json, brace, NotSpace) == brace;
    var s := START.(p := brace + 1, phase := KeyOrEnd);
    assert Step(json, behind, max, START.(p := brace)) == s;
    MembersScanned(json, behind, max, s, d.members, d.beforeClose);
  }

  /** What span r shows of json is m's key and m's value, the latter with its opening quote if it has one. */
  predicate Shows(json: string, r: Property, m: Member) {
    && r.keyBegin <= r.keyEnd <= |json| && r.valueBegin <= r.valueEnd <= |json|
    && json[r.keyBegin..r.keyEnd] == m.key
    && json[r.valueBegin..r.valueEnd] == (if m.value.Quoted? then ['"'] else []) + m.value.text
  }

  lemma MemberShown(json: string, off: nat, m: Member)
    requires MemberAt(json, off, m)
    ensures Shows(json, MemberSpan(m, off), m)
  {
    var r := MemberSpan(m, off);
    OccursSlice(json, r.keyBegin, m.key);
    if m.value.Quoted? {
      OccursSlice(json, r.valueBegin + 1, m.value.text);
      assert json[r.valueBegin..r.valueEnd] == [json[r.valueBegin]] + json[r.valueBegin + 1..r.valueEnd];
    } else {
      OccursSlice(json, r.valueBegin, m.value.text);
    }
  }

  lemma {:induction false} MembersShown(json: string, ms: seq<Member>, beforeClose: string, off: nat, i: nat)
    requires MembersAt(json, off, ms, beforeClose) && i < |ms|
    ensures Shows(json, MembersSpans(ms, off)[i], ms[i])
    decreases |ms|
  {
    if i > 0 {
      MembersShown(json, ms[1..], beforeClose, MemberEnd(ms[0], off) + 1, i - 1);
    } else {
      MemberShown(json, off, ms[0]);
    }
  }

  /** The round trip in terms of contents: the i-th property shows the i-th key and value. */
  lemma RoundTripContents(d: Document, behind: char, max: nat, i: nat)
    requires DocumentOk(d) && i < |d.members| && i < max
    ensures var props := Parse(DocumentText(d), behind, max, START);
            i < |props| && Shows(DocumentText(d), props[i], d.members[i])
  {
    RoundTrip(d, behind, max);
    DocumentTextPlaced(d);
    MembersShown(DocumentText(d), d.members, d.beforeClose, |d.lead| + 1, i);
  }
}
