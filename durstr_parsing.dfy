/** Properties of the pair accumulator of src/lib.rs, stated about `Durstr.Accumulate`. */
module DurstrParsing {
  import opened Results
  import opened Ascii
  import opened Durstr
  import opened DurstrLexing

  /** `a`, then `b` added to it; the first error wins. */
  function Chain(a: Result<nat, Error>, b: Result<nat, Error>): Result<nat, Error>
  {
    match a
    case Ok(x) => AddTo(x, b)
    case Err(e) => Err(e)
  }

  /** `unit` is in the documented alias table under `p`'s case policy. */
  predicate Known(p: Parser, unit: string)
  {
    p.UnitKey(unit) in UNIT_TABLE
  }

  /**
   * `ts` is a sequence of `Number, Unit` pairs whose units are all in the table:
   * numbers at the even positions, known units at the odd ones.
   */
  predicate WellPaired(p: Parser, ts: seq<Token>)
  {
    && |ts| % 2 == 0
    && forall k :: 0 <= k < |ts| ==>
         if k % 2 == 0 then ts[k].Number? else ts[k].Unit? && Known(p, ts[k].text)
  }

  lemma WellPairedStep(p: Parser, ts: seq<Token>)
    requires |ts| >= 2
    ensures WellPaired(p, ts) <==>
      ts[0].Number? && ts[1].Unit? && Known(p, ts[1].text) && WellPaired(p, ts[2..])
  {
    var rest := ts[2..];
    if ts[0].Number? && ts[1].Unit? && Known(p, ts[1].text) && WellPaired(p, rest) {
      forall k | 2 <= k < |ts|
        ensures if k % 2 == 0 then ts[k].Number? else ts[k].Unit? && Known(p, ts[k].text)
      {
        assert rest[k - 2] == ts[k];
      }
    }
    if WellPaired(p, ts) {
      forall k | 0 <= k < |rest|
        ensures if k % 2 == 0 then rest[k].Number? else rest[k].Unit? && Known(p, rest[k].text)
      {
        assert rest[k] == ts[k + 2];
      }
      assert ts[0].Number? && ts[1].Unit? && Known(p, ts[1].text);
    }
  }

  /** The accumulator succeeds exactly on well-paired token sequences. */
  lemma {:induction false} AccumulateOkIff(p: Parser, ts: seq<Token>)
    ensures Accumulate(p, ts).Ok? <==> WellPaired(p, ts)
    decreases |ts|
  {
    if ts == [] {
    } else if ts[0].Unit? {
      assert !WellPaired(p, ts) by { assert ts[0].Unit?; }
    } else if |ts| == 1 {
    } else {
      WellPairedStep(p, ts);
      if ts[1].Unit? && Known(p, ts[1].text) {
        AccumulateOkIff(p, ts[2..]);
      }
    }
  }

  lemma AddToChain(x: nat, a: Result<nat, Error>, b: Result<nat, Error>)
    ensures AddTo(x, Chain(a, b)) == Chain(AddTo(x, a), b)
  {
  }

  /**
   * The accumulator reads pairs from the front: after a prefix of whole pairs,
   * the rest is summed on top of the prefix's total, and an error in the prefix
   * is the result whatever follows.
   */
  lemma {:induction false} AccumulateAppend(p: Parser, t1: seq<Token>, t2: seq<Token>)
    requires |t1| % 2 == 0
    ensures Accumulate(p, t1 + t2) == Chain(Accumulate(p, t1), Accumulate(p, t2))
    decreases |t1|
  {
    var t := t1 + t2;
    if t1 == [] {
      assert t == t2;
      assert AddTo(0, Accumulate(p, t2)) == Accumulate(p, t2);
    } else {
      assert t[0] == t1[0] && t[1] == t1[1];
      if t1[0].Number? && t1[1].Unit? && p.GetUnitDuration(t1[1].text).Ok? {
        assert t[2..] == t1[2..] + t2;
        AccumulateAppend(p, t1[2..], t2);
        var x := t1[0].value * p.GetUnitDuration(t1[1].text).value;
        AddToChain(x, Accumulate(p, t1[2..]), Accumulate(p, t2));
      }
    }
  }

  /** After whole pairs, a `Unit` where a number belongs is `ExpectedNumber` (as in `"1 s m"`). */
  lemma UnitWhereNumberExpected(p: Parser, t1: seq<Token>, u: string, t2: seq<Token>)
    requires Accumulate(p, t1).Ok?
    ensures Accumulate(p, t1 + [Unit(u)] + t2) == Err(ExpectedNumber)
  {
    assert t1 + [Unit(u)] + t2 == t1 + ([Unit(u)] + t2);
    AccumulateAppend(p, t1, [Unit(u)] + t2);
  }

  /**
   * After whole pairs, a `Number` followed by another `Number` or by nothing is
   * `ExpectedUnit` (as in `"1 2"`).
   */
  lemma NumberWithoutUnit(p: Parser, t1: seq<Token>, n: nat, t2: seq<Token>)
    requires Accumulate(p, t1).Ok?
    requires t2 == [] || t2[0].Number?
    ensures Accumulate(p, t1 + [Number(n)] + t2) == Err(ExpectedUnit)
  {
    var rest := [Number(n)] + t2;
    assert t1 + [Number(n)] + t2 == t1 + rest;
    AccumulateAppend(p, t1, rest);
    if t2 != [] { assert rest[1] == t2[0]; }
  }

  /** After whole pairs, a pair whose unit is not in the table is `UnexpectedUnit` of the looked-up spelling. */
  lemma UnknownUnitStops(p: Parser, t1: seq<Token>, n: nat, u: string, t2: seq<Token>)
    requires Accumulate(p, t1).Ok? && !Known(p, u)
    ensures Accumulate(p, t1 + [Number(n), Unit(u)] + t2) == Err(UnexpectedUnit(p.UnitKey(u)))
  {
    var rest := [Number(n), Unit(u)] + t2;
    assert t1 + [Number(n), Unit(u)] + t2 == t1 + rest;
    AccumulateAppend(p, t1, rest);
    assert rest[0] == Number(n) && rest[1] == Unit(u);
  }

  // ---------------------------------------------------------------------------
  // Sums over pairs

  /** One `<number> <unit>` pair of the input. */
  datatype Pair = Pair(count: nat, unit: string)

  /** The tokens of a list of pairs. */
  function Spell(ps: seq<Pair>): seq<Token>
  {
    if ps == [] then [] else [Number(ps[0].count), Unit(ps[0].unit)] + Spell(ps[1..])
  }

  predicate AllKnown(p: Parser, ps: seq<Pair>)
  {
    forall i :: 0 <= i < |ps| ==> Known(p, ps[i].unit)
  }

  /** The documented meaning of a list of pairs: the sum of count times the unit's table entry. */
  function Total(p: Parser, ps: seq<Pair>): nat
    requires AllKnown(p, ps)
  {
    if ps == [] then 0
    else ps[0].count * UNIT_TABLE[p.UnitKey(ps[0].unit)] + Total(p, ps[1..])
  }

  /** Well-formed pairs with known units are accepted, and their value is the sum over the pairs. */
  lemma {:induction false} AccumulateSpelled(p: Parser, ps: seq<Pair>)
    requires AllKnown(p, ps)
    ensures Accumulate(p, Spell(ps)) == Ok(Total(p, ps))
    decreases |ps|
  {
    if ps != [] {
      var ts := Spell(ps);
      assert ts[0] == Number(ps[0].count) && ts[1] == Unit(ps[0].unit);
      assert ts[2..] == Spell(ps[1..]);
      assert Known(p, ps[0].unit);
      AccumulateSpelled(p, ps[1..]);
    }
  }

  lemma {:induction false} TotalAppend(p: Parser, a: seq<Pair>, b: seq<Pair>)
    requires AllKnown(p, a + b)
    ensures AllKnown(p, a) && AllKnown(p, b)
    ensures Total(p, a + b) == Total(p, a) + Total(p, b)
    decreases |a|
  {
    assert forall i :: 0 <= i < |a| ==> (a + b)[i] == a[i];
    assert forall i :: 0 <= i < |b| ==> (a + b)[|a| + i] == b[i];
    if a == [] {
      assert a + b == b;
    } else {
      assert (a + b)[1..] == a[1..] + b;
      TotalAppend(p, a[1..], b);
    }
  }

  /** What one pair adds to the total. */
  function PairValue(p: Parser, x: Pair): nat
    requires Known(p, x.unit)
  {
    x.count * UNIT_TABLE[p.UnitKey(x.unit)]
  }

  lemma TotalRemove(p: Parser, qs: seq<Pair>, k: nat)
    requires AllKnown(p, qs) && k < |qs|
    ensures AllKnown(p, qs[..k] + qs[k + 1..])
    ensures Total(p, qs) == PairValue(p, qs[k]) + Total(p, qs[..k] + qs[k + 1..])
  {
    var front, back := qs[..k], qs[k + 1..];
    assert qs == front + ([qs[k]] + back);
    TotalAppend(p, front, [qs[k]] + back);
    assert ([qs[k]] + back)[1..] == back;
    assert AllKnown(p, front + back) by {
      forall i | 0 <= i < |front + back| ensures Known(p, (front + back)[i].unit) {
        if i < k { assert (front + back)[i] == qs[i]; } else { assert (front + back)[i] == qs[i + 1]; }
      }
    }
    TotalAppend(p, front, back);
  }

  lemma KnownByMultiset(p: Parser, ps: seq<Pair>, qs: seq<Pair>)
    requires AllKnown(p, ps) && multiset(ps) == multiset(qs)
    ensures AllKnown(p, qs)
  {
    forall i | 0 <= i < |qs| ensures Known(p, qs[i].unit) {
      assert qs[i] in multiset(ps);
      var j :| 0 <= j < |ps| && ps[j] == qs[i];
    }
  }

  lemma MultisetRemove(qs: seq<Pair>, k: nat)
    requires k < |qs|
    ensures multiset(qs[..k] + qs[k + 1..]) == multiset(qs) - multiset{qs[k]}
  {
    assert qs == qs[..k] + [qs[k]] + qs[k + 1..];
  }

  /** Reordering the pairs does not change their total. */
  lemma {:induction false} TotalPermutation(p: Parser, ps: seq<Pair>, qs: seq<Pair>)
    requires AllKnown(p, ps) && multiset(ps) == multiset(qs)
    ensures AllKnown(p, qs) && Total(p, ps) == Total(p, qs)
    decreases |ps|
  {
    KnownByMultiset(p, ps, qs);
    if ps == [] {
      assert |qs| == |multiset(qs)| == 0;
    } else {
      var x := ps[0];
      assert x in multiset(qs);
      var k :| 0 <= k < |qs| && qs[k] == x;
      var rest := qs[..k] + qs[k + 1..];
      MultisetRemove(qs, k);
      assert ps == [x] + ps[1..];
      assert multiset(rest) == multiset(ps[1..]);
      TotalPermutation(p, ps[1..], rest);
      TotalRemove(p, qs, k);
    }
  }

  /** The duration of well-formed pairs does not depend on their order; repeated units just add. */
  lemma AccumulateOrderIndependent(p: Parser, ps: seq<Pair>, qs: seq<Pair>)
    requires AllKnown(p, ps) && multiset(ps) == multiset(qs)
    ensures Accumulate(p, Spell(ps)) == Accumulate(p, Spell(qs))
  {
    TotalPermutation(p, ps, qs);
    AccumulateSpelled(p, ps);
    AccumulateSpelled(p, qs);
  }

  // ---------------------------------------------------------------------------
  // Case policy

  /** Every spelling in the table is lower case. */
  lemma TableIsLowerCase()
    ensures forall k :: k in UNIT_TABLE ==> Lower(k) == k
  {
    forall k | k in UNIT_TABLE ensures Lower(k) == k {
      assert forall i :: 0 <= i < |k| ==> !IsUpper(k[i]);
    }
  }

  /** The singular long forms are not in the table, under either case policy. */
  lemma SingularLongFormsRejected(p: Parser, u: string)
    requires u == "millisecond" || u == "second" || u == "minute" || u == "hour"
    ensures p.GetUnitDuration(u) == Err(UnexpectedUnit(u))
  {
    assert Lower(u) == u by {
      assert forall i :: 0 <= i < |u| ==> !IsUpper(u[i]);
    }
  }

  /** Case-sensitive matching rejects any unit with an upper-case letter, naming it as written. */
  lemma UpperCaseRejected(u: string)
    requires Lower(u) != u
    ensures Parser(ParserOptions(false)).GetUnitDuration(u) == Err(UnexpectedUnit(u))
  {
    TableIsLowerCase();
  }

  /** Whatever case-sensitive matching accepts, case-insensitive matching accepts with the same value. */
  lemma IgnoreCaseExtends(u: string)
    requires Parser(ParserOptions(false)).GetUnitDuration(u).Ok?
    ensures Parser(ParserOptions(true)).GetUnitDuration(u) == Parser(ParserOptions(false)).GetUnitDuration(u)
  {
    TableIsLowerCase();
  }

  /** Under case-insensitive matching, lower-casing the units changes nothing. */
  lemma {:induction false} AccumulateLower(ts: seq<Token>)
    ensures Accumulate(Parser(ParserOptions(true)), LowerTokens(ts))
         == Accumulate(Parser(ParserOptions(true)), ts)
    decreases |ts|
  {
    var p := Parser(ParserOptions(true));
    var ls := LowerTokens(ts);
    if |ts| >= 2 {
      assert ls[0] == LowerToken(ts[0]) && ls[1] == LowerToken(ts[1]);
      if ts[1].Unit? {
        LowerIdempotent(ts[1].text);
        assert p.UnitKey(ls[1].text) == p.UnitKey(ts[1].text);
      }
      assert ls[2..] == LowerTokens(ts[2..]);
      AccumulateLower(ts[2..]);
    } else if |ts| == 1 {
      assert ls[0] == LowerToken(ts[0]);
    }
  }
}
