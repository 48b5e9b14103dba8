/** The scan of geekopen.cpp, on any text whatever, against a plain reading of it member by member. */
module JsonGrammar {
  import opened JsonScanner
  import opened JsonRoundTrip
  import opened JsonSafety

  /** There is room, and a quote before any brace. */
  predicate HasKey(json: string, p: nat, room: nat) {
    var quote := SkipUntil(json, p, StartsKey);
    room > 0 && quote < |json| && json[quote] == '"'
  }

  /** The members from p on. */
  function Members(json: string, p: nat, room: nat): seq<Property>
    decreases room, 2
  {
    if HasKey(json, p, room) then BehindKey(json, SkipUntil(json, p, StartsKey) + 1, room) else []
  }

  /** The key from its first character on, up to the next quote; then a colon, with something behind it. */
  function BehindKey(json: string, key: nat, room: nat): seq<Property>
    requires room > 0
    decreases room, 1
  {
    var keyEnd := SkipUntil(json, key, IsQuote);
    var colon := SkipUntil(json, keyEnd + 1, IsColon);
    if colon + 1 >= |json| then [] else ValueAndMore(json, key, keyEnd, colon + 1, room)
  }

  /** A key's value, which begins with what is no blank, and the members behind a comma as far as there is room. */
  function ValueAndMore(json: string, keyBegin: nat, keyEnd: nat, p: nat, room: nat): seq<Property>
    requires room > 0
    decreases room, 0
  {
    var value := SkipUntil(json, p, NotSpace);
    var (valueEnd, behind) := ValueEnds(json, value);
    var next := SkipUntil(json, behind, EndsBare);
    [Property(keyBegin, keyEnd, value, valueEnd)]
    + if next < |json| && json[next] == ',' then Members(json, next + 1, room - 1) else []
  }

  /** Where a value ends, and where what is behind it begins: a closing quote is neither. */
  function ValueEnds(json: string, value: nat): (nat, nat) {
    if value < |json| && json[value] == '"' then
      var closing := SkipUntil(json, value + 1, IsQuote);
      (closing, closing + 1)
    else
      var end := SkipUntil(json, value, EndsBare);
      (end, end)
  }

  /** The members of the first brace, if there is one. */
  function Read(json: string, max: nat): seq<Property> {
    var brace := SkipUntil(json, 0, Opens);
    if brace < |json| then Members(json, brace + 1, max) else []
  }

  // ---------------------------------------------------------------- phase by phase

  lemma KeyPad(json: string, max: nat, s: Scan, q: nat)
    requires s.phase.KeyOrEnd? && !s.done && s.p <= |json| && q == SkipUntil(json, s.p, StartsKey)
    ensures Parse(json, NUL, max, s) == if q >= |json| then s.props else Parse(json, NUL, max, s.(p := q))
    ensures q < |json| ==> StartsKey(json[q])
  {
    FindsFirst(json, s.p, StartsKey);
    if q < |json| { PadSkipped(json, NUL, max, s, q); } else { PadToEnd(json, max, s); }
  }

  /** From a place where a key is expected to behind the key, or nothing more is found. */
  lemma KeyRead(json: string, max: nat, s: Scan, key: nat) returns (t: Scan)
    requires s.phase.KeyOrEnd? && !s.done && s.p <= |json| && |s.props| <= max
    requires key == SkipUntil(json, s.p, StartsKey) + 1
    ensures var keyEnd := SkipUntil(json, key, IsQuote); t == Scan(keyEnd + 1, Colon, s.props, key, keyEnd, false)
    ensures Parse(json, NUL, max, s)
         == if HasKey(json, s.p, max - |s.props|) then Parse(json, NUL, max, t) else s.props
  {
    var keyEnd := SkipUntil(json, key, IsQuote);
    t := Scan(keyEnd + 1, Colon, s.props, key, keyEnd, false);
    KeyPad(json, max, s, key - 1);
    if key <= |json| {
      assert SkipUntil(json, key - 1, NotSpace) == key - 1;
      if json[key - 1] == '"' && |s.props| < max { StepAtKey(json, NUL, max, s.(p := key - 1), keyEnd); }
    }
  }

  /** From there to behind the colon, or nothing more is found. */
  lemma ColonRead(json: string, max: nat, s: Scan) returns (t: Scan)
    requires s.phase.Colon? && !s.done
    ensures var colon := SkipUntil(json, s.p, IsColon);
            && t == s.(p := colon + 1, phase := Value)
            && Parse(json, NUL, max, s) == if colon + 1 >= |json| then s.props else Parse(json, NUL, max, t)
  {
    var colon := SkipUntil(json, s.p, IsColon);
    t := s.(p := colon + 1, phase := Value);
    if s.p <= |json| {
      FindsFirst(json, s.p, IsColon);
      if colon < |json| {
        PadSkipped(json, NUL, max, s, colon);
        StepAtColon(json, NUL, max, s.(p := colon));
      } else {
        PadToEnd(json, max, s);
      }
    }
  }

  /** From there to behind the value. */
  lemma ValueRead(json: string, max: nat, s: Scan) returns (t: Scan)
    requires s.phase.Value? && !s.done && s.p < |json|
    ensures var value := SkipUntil(json, s.p, NotSpace);
            var (valueEnd, behind) := ValueEnds(json, value);
            && s.p <= behind && t.p == behind && t.phase.CommaOrEnd? && !t.done
            && t.props == s.props + [Property(s.keyBegin, s.keyEnd, value, valueEnd)]
            && Parse(json, NUL, max, s) == Parse(json, NUL, max, t)
  {
    t := Step(json, NUL, max, s);
  }

  /** From there to behind the comma, or nothing more is found. */
  lemma CommaRead(json: string, max: nat, s: Scan) returns (t: Scan)
    requires s.phase.CommaOrEnd? && !s.done
    ensures var next := SkipUntil(json, s.p, EndsBare);
            if next < |json| && json[next] == ','
            then t == s.(p := next + 1, phase := KeyOrEnd) && Parse(json, NUL, max, s) == Parse(json, NUL, max, t)
            else Parse(json, NUL, max, s) == s.props
  {
    var next := SkipUntil(json, s.p, EndsBare);
    t := s.(p := next + 1, phase := KeyOrEnd);
    if s.p <= |json| {
      FindsFirst(json, s.p, EndsBare);
      if next == |json| {
        PadToEnd(json, max, s);
      } else {
        PadSkipped(json, NUL, max, s, next);
        if json[next] == ',' {
          t := StepAtComma(json, NUL, max, s.(p := next));
        } else {
          StepAtBrace(json, NUL, max, s.(p := next));
        }
      }
    }
  }

  lemma {:induction false} MembersRead(json: string, max: nat, s: Scan)
    requires s.phase.KeyOrEnd? && !s.done && s.p <= |json| && |s.props| <= max
    ensures Parse(json, NUL, max, s) == s.props + Members(json, s.p, max - |s.props|)
    decreases max - |s.props|, 2
  {
    var t := KeyRead(json, max, s, SkipUntil(json, s.p, StartsKey) + 1);
    if HasKey(json, s.p, max - |s.props|) { BehindKeyRead(json, max, t); }
  }

  lemma {:induction false} BehindKeyRead(json: string, max: nat, s: Scan)
    requires s.phase.Colon? && !s.done && |s.props| < max
    requires s.keyEnd == SkipUntil(json, s.keyBegin, IsQuote) && s.p == s.keyEnd + 1
    ensures Parse(json, NUL, max, s) == s.props + BehindKey(json, s.keyBegin, max - |s.props|)
    decreases max - |s.props|, 1
  {
    var v := ColonRead(json, max, s);
    if v.p < |json| { ValueAndMoreRead(json, max, v); }
  }

  lemma {:induction false} ValueAndMoreRead(json: string, max: nat, s: Scan)
    requires s.phase.Value? && !s.done && s.p < |json| && |s.props| < max
    ensures Parse(json, NUL, max, s)
         == s.props + ValueAndMore(json, s.keyBegin, s.keyEnd, s.p, max - |s.props|)
    decreases max - |s.props|, 0
  {
    var v := ValueRead(json, max, s);
    var t := CommaRead(json, max, v);
    var next := SkipUntil(json, v.p, EndsBare);
    if next < |json| && json[next] == ',' {
      MembersRead(json, max, t);
      PropsFirst(s.props, v.props[|s.props|], Members(json, t.p, max - |t.props|));
    }
  }

  lemma PropsFirst(props: seq<Property>, r: Property, more: seq<Property>)
    ensures (props + [r]) + more == props + ([r] + more)
  {
  }

  lemma BraceRead(json: string, max: nat, brace: nat)
    requires brace < |json| && brace == SkipUntil(json, 0, Opens)
    ensures Parse(json, NUL, max, START) == Members(json, brace + 1, max)
  {
    FindsFirst(json, 0, Opens);
    PadSkippedTo(json, max, brace);
    var s := START.(p := brace + 1, phase := KeyOrEnd);
    MembersRead(json, max, s);
    assert s.props == [];
  }

  lemma NoBraceRead(json: string, max: nat)
    requires SkipUntil(json, 0, Opens) >= |json|
    ensures Parse(json, NUL, max, START) == []
  {
    FindsFirst(json, 0, Opens);
    PadToEnd(json, max, START);
  }

  /**
   On every text the scan finds just what reading it member by member does, but that with a quote behind the text
   the end of a missing last value is one further.
   */
  lemma ScanIsReading(json: string, behind: char, max: nat)
    ensures Parse(json, behind, max, START)
         == if behind == '"' then Lengthened(json, Read(json, max)) else Read(json, max)
  {
    BehindMatters(json, behind, max, START);
    if SkipUntil(json, 0, Opens) < |json| {
      BraceRead(json, max, SkipUntil(json, 0, Opens));
    } else {
      NoBraceRead(json, max);
    }
  }
}
