/**
 * Collecting the parameters and the key of a control sequence
 * (alfalfa/src/terminal/terminaldispatcher.cc).
 */
module Dispatchers {
  import opened TerminalParser
  import opened TerminalRenditions

  const PARAM_MAX: int := 65535
  const SEMICOLON: Char := 0x3B

  /** Where the segment that starts at i ends. */
  function SegmentEnd(params: seq<Char>, i: nat): (e: nat)
    requires i <= |params|
    ensures i <= e <= |params|
    ensures SEMICOLON !in params[i..e]
    ensures e < |params| ==> params[e] == SEMICOLON
    decreases |params| - i
  {
    if i == |params| || params[i] == SEMICOLON then i else
      var e := SegmentEnd(params, i + 1);
      assert params[i..e] == [params[i]] + params[i + 1..e];
      e
  }

  function Decimal(digits: seq<Char>): int {
    if digits == [] then 0 else 10 * Decimal(digits[..|digits| - 1]) + digits[|digits| - 1] - 0x30
  }

  /** Empty and overlarge parameters count as -1. */
  function SegmentValue(segment: seq<Char>): int {
    if segment == [] || Decimal(segment) > PARAM_MAX then -1 else Decimal(segment)
  }

  /** The parameters from position i on. */
  function ParseFrom(params: seq<Char>, i: nat): seq<int>
    requires i <= |params|
    decreases |params| - i
  {
    var e := SegmentEnd(params, i);
    [SegmentValue(params[i..e])] + if e == |params| then [] else ParseFrom(params, e + 1)
  }

  lemma FirstParam(params: seq<Char>, i: nat)
    requires i <= |params|
    ensures var e := SegmentEnd(params, i);
      ParseFrom(params, i) == [SegmentValue(params[i..e])] + if e == |params| then [] else ParseFrom(params, e + 1)
  {
    hide SegmentValue;
  }

  lemma Regroup(a: seq<int>, x: int, b: seq<int>)
    ensures a + ([x] + b) == (a + [x]) + b
  {
  }

  function ParseParams(params: seq<Char>): seq<int> {
    ParseFrom(params, 0)
  }

  // ---------------------------------------------------------------- lists of parameters

  function Joined(segments: seq<seq<Char>>): seq<Char>
    requires segments != []
  {
    segments[0] + if |segments| == 1 then [] else [SEMICOLON] + Joined(segments[1..])
  }

  predicate Separate(segments: seq<seq<Char>>) {
    segments != [] && forall i | 0 <= i < |segments| :: SEMICOLON !in segments[i]
  }

  function Values(segments: seq<seq<Char>>): seq<int> {
    seq(|segments|, i requires 0 <= i < |segments| => SegmentValue(segments[i]))
  }

  /** Reading up to the first semicolon. */
  lemma {:induction false} EndOfSegment(before: seq<Char>, d: seq<Char>, rest: seq<Char>)
    requires SEMICOLON !in d && (rest == [] || rest[0] == SEMICOLON)
    ensures SegmentEnd(before + d + rest, |before|) == |before| + |d|
    decreases |d|
  {
    var s := before + d + rest;
    if d != [] {
      EndOfSegment(before + [d[0]], d[1..], rest);
      assert before + [d[0]] + d[1..] + rest == s;
    }
  }

  lemma ParseOne(before: seq<Char>, d: seq<Char>, rest: seq<Char>)
    requires SEMICOLON !in d && (rest == [] || rest[0] == SEMICOLON)
    ensures var s := before + d + rest;
      ParseFrom(s, |before|) == [SegmentValue(d)] + if rest == [] then [] else ParseFrom(s, |before| + |d| + 1)
  {
    hide ParseFrom, SegmentEnd, SegmentValue;
    var s := before + d + rest;
    EndOfSegment(before, d, rest);
    assert s[|before|..|before| + |d|] == d;
    FirstParam(s, |before|);
  }

  lemma {:induction false} JoinedFrom(before: seq<Char>, segments: seq<seq<Char>>)
    requires Separate(segments)
    ensures ParseFrom(before + Joined(segments), |before|) == Values(segments)
    decreases |segments|
  {
    hide ParseFrom, SegmentValue;
    var d := segments[0];
    var rest := if |segments| == 1 then [] else [SEMICOLON] + Joined(segments[1..]);
    assert before + Joined(segments) == before + d + rest;
    ParseOne(before, d, rest);
    if |segments| > 1 {
      var before1 := before + d + [SEMICOLON];
      assert before + d + rest == before1 + Joined(segments[1..]);
      JoinedFrom(before1, segments[1..]);
      assert Values(segments) == [SegmentValue(d)] + Values(segments[1..]);
    }
  }

  /** Any string of parameter characters is a list of segments joined by semicolons, and parsing it gives the value of
      every segment, empty ones included, in order. */
  lemma {:induction false} EveryStringParses(params: seq<Char>) returns (segments: seq<seq<Char>>)
    ensures Separate(segments) && Joined(segments) == params && ParseParams(params) == Values(segments)
  {
    segments := SplitFrom(params, 0);
    assert params[0..] == params;
    JoinedFrom([], segments);
    assert [] + Joined(segments) == params;
  }

  lemma {:induction false} SplitFrom(params: seq<Char>, i: nat) returns (segments: seq<seq<Char>>)
    requires i <= |params|
    ensures Separate(segments) && Joined(segments) == params[i..]
    decreases |params| - i
  {
    var e := SegmentEnd(params, i);
    segments := [params[i..e]];
    if e < |params| {
      var more := SplitFrom(params, e + 1);
      segments := segments + more;
      assert segments[1..] == more;
      assert params[i..] == params[i..e] + [SEMICOLON] + params[e + 1..];
    }
  }

  /** The characters of a control sequence so far. */
  datatype Keys = Keys(params: seq<Char>, chars: seq<Char>, osc: seq<Char>)

  function AddParam(k: Keys, ch: Char): Keys {
    if |k.params| < 100 then k.(params := k.params + [ch]) else k
  }

  function AddKey(k: Keys, ch: Char): Keys {
    if |k.chars| < 8 && ch <= 255 then k.(chars := k.chars + [ch]) else k
  }

  function AddOsc(k: Keys, ch: Char): Keys {
    if |k.osc| < 256 then k.(osc := k.osc + [ch]) else k
  }

  class Dispatcher {
    var params: seq<Char>
    var parsedParams: seq<int>
    var parsed: bool
    var dispatchChars: seq<Char>
    var oscString: seq<Char>

    /** Parameters parsed before are those of the present string. */
    ghost predicate Valid()
      reads this
    {
      && (forall c | c in params :: ParamChar(c))
      && (parsed ==> parsedParams == ParseParams(params))
    }

    ghost function Value(): Keys
      reads this`params, this`dispatchChars, this`oscString
    {
      Keys(params, dispatchChars, oscString)
    }

    constructor ()
      ensures Valid() && Value() == Keys([], [], [])
    {
      params, parsedParams, parsed, dispatchChars, oscString := [], [], false, [], [];
    }

    method NewParamChar(ch: Char)
      requires Valid() && ParamChar(ch)
      modifies this`params, this`parsed
      ensures Valid() && Value() == AddParam(old(Value()), ch)
    {
      if |params| < 100 {
        params := params + [ch];
      }
      parsed := false;
    }

    method Collect(ch: Char)
      requires Valid()
      modifies this`dispatchChars
      ensures Valid() && Value() == AddKey(old(Value()), ch)
    {
      if |dispatchChars| < 8 && ch <= 255 {
        dispatchChars := dispatchChars + [ch];
      }
    }

    method Clear()
      modifies this`params, this`dispatchChars, this`parsed
      ensures Valid() && Value() == old(Value()).(params := [], chars := [])
    {
      params, dispatchChars, parsed := [], [], false;
    }

    method OscPut(ch: Char)
      requires Valid()
      modifies this`oscString
      ensures Valid() && Value() == AddOsc(old(Value()), ch)
    {
      if |oscString| < 256 {
        oscString := oscString + [ch];
      }
    }

    method OscStart()
      requires Valid()
      modifies this`oscString
      ensures Valid() && Value() == old(Value()).(osc := [])
    {
      oscString := [];
    }

    method Parse()
      requires Valid()
      modifies this`parsedParams, this`parsed
      ensures Valid() && parsed
    {
      hide ParamChar, ParseFrom, SegmentValue, SegmentEnd;
      if parsed {
        return;
      }
      parsedParams := [];
      var begin := 0;
      while true
        invariant 0 <= begin <= |params|
        invariant parsedParams + ParseFrom(params, begin) == ParseParams(params)
        decreases |params| - begin
      {
        var end := FindSemicolon(begin);
        if end == |params| {
          break;
        }
        var val := ToNumber(begin, end);
        FirstParam(params, begin);
        Regroup(parsedParams, val, ParseFrom(params, end + 1));
        parsedParams := parsedParams + [val];
        begin := end + 1;
      }
      FirstParam(params, begin);
      var val := ToNumber(begin, |params|);
      parsedParams := parsedParams + [val];
      parsed := true;
    }

    /** `strchr`: the next semicolon, or the end. */
    method FindSemicolon(begin: nat) returns (end: nat)
      requires begin <= |params|
      ensures end == SegmentEnd(params, begin)
    {
      end := begin;
      while end < |params| && params[end] != SEMICOLON
        invariant begin <= end <= |params|
        invariant SegmentEnd(params, end) == SegmentEnd(params, begin)
      {
        end := end + 1;
      }
    }

    /** `strtol` on the digits between two semicolons, and the limit on its result. */
    method ToNumber(begin: nat, end: nat) returns (val: int)
      requires begin <= end <= |params|
      ensures val == SegmentValue(params[begin..end])
    {
      val := 0;
      var i := begin;
      while i < end
        invariant begin <= i <= end
        invariant val == Decimal(params[begin..i])
      {
        assert params[begin..i + 1][..i - begin] == params[begin..i];
        val := 10 * val + params[i] - 0x30;
        i := i + 1;
      }
      if end == begin {
        val := -1;
      }
      if val > PARAM_MAX {
        val := -1;
      }
    }

    method GetParam(n: nat, default: int) returns (r: int)
      requires Valid()
      modifies this`parsedParams, this`parsed
      ensures Valid() && r == TerminalRenditions.Param(ParseParams(params), n, default)
    {
      Parse();
      r := default;
      if n < |parsedParams| {
        r := parsedParams[n];
      }
      if r < 1 {
        r := default;
      }
    }

    method ParamCount() returns (n: nat)
      requires Valid()
      modifies this`parsedParams, this`parsed
      ensures Valid() && n == |ParseParams(params)|
    {
      Parse();
      n := |parsedParams|;
    }
  }
}
