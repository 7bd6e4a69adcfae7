/** promtorture's --targets option: a comma-separated list of counts. */
module ParseTargets {
  import opened Wrappers

  import opened Decimal
  import opened MixedRadix

  const INT32_MAX: int := 0x7FFF_FFFF

  /** strings.Split at commas: always at least one piece. */
  function Split(s: string): (r: seq<string>)
    ensures r != []
  {
    if s == [] then [""]
    else
      var rest := Split(s[1..]);
      if s[0] == ',' then [""] + rest else [[s[0]] + rest[0]] + rest[1..]
  }

  function Join(pieces: seq<string>): string {
    if pieces == [] then ""
    else if |pieces| == 1 then pieces[0]
    else pieces[0] + "," + Join(pieces[1..])
  }

  /** strconv.ParseInt(t, 10, 32): an optional sign, digits, and the 32-bit range. */
  function ParseInt32(t: string): Option<int> {
    var digits := if t != [] && t[0] in {'+', '-'} then t[1..] else t;
    if digits == [] || !AllDigits(digits) then None else
    var n := if t[0] == '-' then -(Value(digits) as int) else Value(digits) as int;
    if -INT32_MAX - 1 <= n <= INT32_MAX then Some(n) else None
  }

  /** An element is accepted when it is a number from 1 to the 32-bit maximum. */
  predicate Accepted(t: string) {
    ParseInt32(t).Some? && ParseInt32(t).value >= 1
  }

  predicate AllAccepted(pieces: seq<string>) {
    forall i :: 0 <= i < |pieces| ==> Accepted(pieces[i])
  }

  /** t is the number v in decimal, perhaps with a plus sign, and v is one of the
      numbers accepted. */
  ghost predicate IsCount(t: string, v: int) {
    1 <= v <= 0x7FFF_FFFF
    && exists digits: string ::
         digits != "" && AllDigits(digits) && (t == digits || t == "+" + digits) && v == Value(digits)
  }

  ghost predicate IsSomeCount(t: string) {
    exists v :: IsCount(t, v)
  }

  lemma AcceptedExactly(t: string)
    ensures Accepted(t) <==> IsSomeCount(t)
    ensures Accepted(t) ==> IsCount(t, ParseInt32(t).value)
  {
    var digits := if t != [] && t[0] in {'+', '-'} then t[1..] else t;
    if Accepted(t) {
      assert t[0] != '-';
      assert t[0] == '+' ==> t == "+" + digits;
      assert IsCount(t, ParseInt32(t).value);
    }
    forall v, s: string | 1 <= v <= INT32_MAX && s != "" && AllDigits(s) && (t == s || t == "+" + s) && v == Value(s)
      ensures ParseInt32(t) == Some(v)
    {
      assert IsDigit(s[0]);
      assert t != s ==> t[1..] == s;
      assert digits == s;
    }
  }

  /** parseTargets: the first bad element is reported, otherwise every element's
      number is taken, in order; the list is not empty and all its counts are
      positive, as the registry requires. */
  method ParseTargetList(param: string) returns (r: Option<seq<nat>>, badIndex: nat)
    ensures r.Some? <==> AllAccepted(Split(param))
    ensures r.Some? <==> forall i :: 0 <= i < |Split(param)| ==> IsSomeCount(Split(param)[i])
    ensures r.Some? ==>
              && |r.value| == |Split(param)|
              && forall i :: 0 <= i < |r.value| ==> IsCount(Split(param)[i], r.value[i])
    ensures r.Some? ==>
              && |r.value| == |Split(param)| >= 1 && Radixes(r.value)
              && forall i :: 0 <= i < |r.value| ==> ParseInt32(Split(param)[i]) == Some(r.value[i])
    ensures r.None? ==>
              && badIndex < |Split(param)| && !Accepted(Split(param)[badIndex])
              && forall i :: 0 <= i < badIndex ==> Accepted(Split(param)[i])
    ensures r.None? ==>
              && !IsSomeCount(Split(param)[badIndex])
              && forall i :: 0 <= i < badIndex ==> IsSomeCount(Split(param)[i])
  {
    forall i | 0 <= i < |Split(param)|
      ensures Accepted(Split(param)[i]) <==> IsSomeCount(Split(param)[i])
      ensures Accepted(Split(param)[i]) ==> IsCount(Split(param)[i], ParseInt32(Split(param)[i]).value)
    {
      AcceptedExactly(Split(param)[i]);
    }
    var targets: seq<nat> := [];
    var pieces := Split(param);
    badIndex := 0;
    for i := 0 to |pieces|
      invariant |targets| == i && Radixes(targets)
      invariant forall j :: 0 <= j < i ==> Accepted(pieces[j]) && ParseInt32(pieces[j]) == Some(targets[j])
    {
      var tn := ParseInt32(pieces[i]);
      if tn.None? {
        assert !Accepted(pieces[i]) && !AllAccepted(pieces);
        return None, i;
      }
      if tn.value < 1 {
        assert !Accepted(pieces[i]) && !AllAccepted(pieces);
        return None, i;
      }
      targets := targets + [tn.value];
    }
    return Some(targets), 0;
  }

  function PrintedList(ts: seq<nat>): seq<string> {
    seq(|ts|, i requires 0 <= i < |ts| => Print(ts[i]))
  }

  predicate CommaFree(t: string) {
    ',' !in t
  }

  lemma {:induction false} SplitPrefix(t: string, s: string)
    requires CommaFree(t)
    ensures Split(t + s) == [t + Split(s)[0]] + Split(s)[1..]
    decreases |t|
  {
    if t == [] {
      assert t + s == s && t + Split(s)[0] == Split(s)[0];
    } else {
      SplitPrefix(t[1..], s);
      assert (t + s)[1..] == t[1..] + s;
      assert [t[0]] + (t[1..] + Split(s)[0]) == t + Split(s)[0];
    }
  }

  lemma {:induction false} SplitJoin(pieces: seq<string>)
    requires pieces != [] && forall i :: 0 <= i < |pieces| ==> CommaFree(pieces[i])
    ensures Split(Join(pieces)) == pieces
    decreases |pieces|
  {
    if |pieces| == 1 {
      SplitPrefix(pieces[0], "");
      assert pieces[0] + "" == pieces[0];
    } else {
      var rest := Join(pieces[1..]);
      SplitJoin(pieces[1..]);
      SplitPrefix(pieces[0], "," + rest);
      assert ("," + rest)[1..] == rest;
      assert Split("," + rest) == [""] + pieces[1..];
      assert pieces[0] + "" == pieces[0];
      assert pieces[0] + "," + rest == pieces[0] + ("," + rest);
    }
  }

  lemma {:induction false} JoinOfSplit(s: string)
    ensures Join(Split(s)) == s
    ensures forall i :: 0 <= i < |Split(s)| ==> CommaFree(Split(s)[i])
    decreases |s|
  {
    if s != [] {
      var rest := Split(s[1..]);
      JoinOfSplit(s[1..]);
      if s[0] != ',' {
        assert Split(s)[1..] == rest[1..];
        assert |rest| > 1 ==> [s[0]] + rest[0] + "," + Join(rest[1..]) == [s[0]] + (rest[0] + "," + Join(rest[1..]));
      } else {
        assert Split(s)[1..] == rest;
        assert "" + "," + Join(rest) == [s[0]] + s[1..];
      }
    }
  }

  /** The pieces are the one way to write the option as comma-free strings with
      commas between them. */
  lemma SplitExactly(s: string, pieces: seq<string>)
    ensures pieces == Split(s)
       <==> pieces != [] && Join(pieces) == s && forall i :: 0 <= i < |pieces| ==> CommaFree(pieces[i])
  {
    JoinOfSplit(s);
    if pieces != [] && Join(pieces) == s && forall i :: 0 <= i < |pieces| ==> CommaFree(pieces[i]) {
      SplitJoin(pieces);
    }
  }

  /** Any list of positive 32-bit counts, written with commas, is read back. */
  lemma PrintedTargetsParse(ts: seq<nat>)
    requires ts != [] && forall i :: 0 <= i < |ts| ==> 1 <= ts[i] <= INT32_MAX
    ensures Split(Join(PrintedList(ts))) == PrintedList(ts)
    ensures forall i :: 0 <= i < |ts| ==> ParseInt32(PrintedList(ts)[i]) == Some(ts[i])
  {
    var pieces := PrintedList(ts);
    forall i | 0 <= i < |ts| ensures CommaFree(pieces[i]) && ParseInt32(pieces[i]) == Some(ts[i]) {
      ValueOfPrint(ts[i]);
      assert IsDigit(pieces[i][0]);
    }
    SplitJoin(pieces);
  }
}
