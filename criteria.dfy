/** The criterion codes the aggregator of the eligibility engine knows, the
    fixed order in which it runs them, and which of them a grant's list of
    codes selects. Nothing here depends on what an evaluator computes. */
module Criteria {

  /** The codes with an evaluator; there is no e0002 and no e0010. */
  datatype Code = E0001 | E0003 | E0004 | E0005 | E0006 | E0007 | E0008 | E0009

  /** The string a grant lists for the code. */
  function CodeName(c: Code): string
  {
    match c
    case E0001 => "e0001"
    case E0003 => "e0003"
    case E0004 => "e0004"
    case E0005 => "e0005"
    case E0006 => "e0006"
    case E0007 => "e0007"
    case E0008 => "e0008"
    case E0009 => "e0009"
  }

  /** The order in which the aggregator runs the evaluators. */
  const Canonical: seq<Code> := [E0001, E0003, E0004, E0005, E0006, E0007, E0008, E0009]

  /** The position of a code in the canonical order. */
  function Rank(c: Code): (k: nat)
    ensures k < |Canonical| && Canonical[k] == c
  {
    match c
    case E0001 => 0
    case E0003 => 1
    case E0004 => 2
    case E0005 => 3
    case E0006 => 4
    case E0007 => 5
    case E0008 => 6
    case E0009 => 7
  }

  /** One `if (b) acc.push(x)` step. */
  function Push<T>(acc: seq<T>, b: bool, x: T): seq<T>
  {
    if b then acc + [x] else acc
  }

  /** The codes among the first `k` of the canonical order whose name the
      grant lists: the first `k` steps of the chain of `if`s. */
  function SelectedUpTo(k: nat, codes: seq<string>): seq<Code>
    requires k <= |Canonical|
  {
    if k == 0 then []
    else Push(SelectedUpTo(k - 1, codes), CodeName(Canonical[k - 1]) in codes, Canonical[k - 1])
  }

  /** The codes whose evaluators run, in the order they run. */
  function SelectedCodes(codes: seq<string>): seq<Code>
  {
    SelectedUpTo(|Canonical|, codes)
  }

  /** Runs `f` on each code, in order. */
  function MapCodes<T>(cs: seq<Code>, f: Code -> T): seq<T>
  {
    if cs == [] then [] else MapCodes(cs[..|cs| - 1], f) + [f(cs[|cs| - 1])]
  }

  /** The `i`-th result is `f` of the `i`-th code. */
  lemma {:induction false} MapCodesAt<T>(cs: seq<Code>, f: Code -> T)
    ensures |MapCodes(cs, f)| == |cs|
    ensures forall i :: 0 <= i < |cs| ==> MapCodes(cs, f)[i] == f(cs[i])
  {
    if cs != [] {
      MapCodesAt(cs[..|cs| - 1], f);
    }
  }

  /** Functions that agree on every code map alike. */
  lemma {:induction false} MapCodesAgree<T>(cs: seq<Code>, f: Code -> T, g: Code -> T)
    requires forall c :: f(c) == g(c)
    ensures MapCodes(cs, f) == MapCodes(cs, g)
  {
    if cs != [] {
      MapCodesAgree(cs[..|cs| - 1], f, g);
    }
  }

  // ---------------------------------------------------------------------
  // What the selection is
  // ---------------------------------------------------------------------

  lemma {:induction false} SelectedUpToMembers(k: nat, codes: seq<string>)
    requires k <= |Canonical|
    ensures forall c :: c in SelectedUpTo(k, codes) <==> Rank(c) < k && CodeName(c) in codes
  {
    if k > 0 {
      SelectedUpToMembers(k - 1, codes);
    }
  }

  lemma {:induction false} SelectedUpToOrdered(k: nat, codes: seq<string>)
    requires k <= |Canonical|
    ensures forall i :: 0 <= i < |SelectedUpTo(k, codes)| ==> Rank(SelectedUpTo(k, codes)[i]) < k
    ensures forall i, j :: 0 <= i < j < |SelectedUpTo(k, codes)| ==>
              Rank(SelectedUpTo(k, codes)[i]) < Rank(SelectedUpTo(k, codes)[j])
  {
    if k > 0 {
      SelectedUpToOrdered(k - 1, codes);
      var prev := SelectedUpTo(k - 1, codes);
      var c := Canonical[k - 1];
      assert Rank(c) == k - 1;
      var r := SelectedUpTo(k, codes);
      if CodeName(c) in codes {
        assert r == prev + [c];
        assert forall i :: 0 <= i < |prev| ==> r[i] == prev[i];
        assert r[|prev|] == c;
      } else {
        assert r == prev;
      }
    }
  }

  lemma {:induction false} SelectedUpToLength(k: nat, codes: seq<string>)
    requires k <= |Canonical|
    ensures |SelectedUpTo(k, codes)| <= k
  {
    if k > 0 {
      SelectedUpToLength(k - 1, codes);
    }
  }

  /** The selection holds exactly the known codes the grant lists, each
      once, in canonical order; so at most eight. */
  lemma SelectionIsCanonical(codes: seq<string>)
    ensures var r := SelectedCodes(codes);
            (forall c :: c in r <==> CodeName(c) in codes) &&
            (forall i, j :: 0 <= i < j < |r| ==> Rank(r[i]) < Rank(r[j])) &&
            |r| <= |Canonical|
  {
    SelectedUpToMembers(|Canonical|, codes);
    SelectedUpToOrdered(|Canonical|, codes);
    SelectedUpToLength(|Canonical|, codes);
  }

  lemma {:induction false} SelectedUpToEmpty(k: nat, codes: seq<string>)
    requires k <= |Canonical|
    ensures SelectedUpTo(k, codes) == [] <==> forall c :: Rank(c) < k ==> CodeName(c) !in codes
  {
    if k > 0 {
      SelectedUpToEmpty(k - 1, codes);
      var c := Canonical[k - 1];
      assert Rank(c) == k - 1;
      if CodeName(c) in codes {
        assert |SelectedUpTo(k, codes)| > 0;
      }
    }
  }

  /** No evaluator runs exactly when the grant lists no known code. */
  lemma SelectionEmptyIffNoneListed(codes: seq<string>)
    ensures SelectedCodes(codes) == [] <==> forall c :: CodeName(c) !in codes
  {
    SelectedUpToEmpty(|Canonical|, codes);
  }

  lemma {:induction false} SelectedUpToOne(k: nat, codes: seq<string>, c: Code)
    requires k <= |Canonical|
    requires forall d :: CodeName(d) in codes <==> d == c
    ensures SelectedUpTo(k, codes) == if Rank(c) < k then [c] else []
  {
    if k > 0 {
      SelectedUpToOne(k - 1, codes, c);
      var d := Canonical[k - 1];
      assert Rank(d) == k - 1;
      if d == c {
        assert CodeName(d) in codes;
        assert SelectedUpTo(k, codes) == [] + [c];
      } else {
        assert CodeName(d) !in codes;
        assert Rank(c) != k - 1;
      }
    }
  }

  /** A grant listing one known code runs that evaluator alone. */
  lemma SelectionOfOneCode(codes: seq<string>, c: Code)
    requires forall d :: CodeName(d) in codes <==> d == c
    ensures SelectedCodes(codes) == [c]
  {
    SelectedUpToOne(|Canonical|, codes, c);
  }

  lemma {:induction false} SelectedUpToSameNames(k: nat, codes1: seq<string>, codes2: seq<string>)
    requires k <= |Canonical|
    requires forall c :: CodeName(c) in codes1 <==> CodeName(c) in codes2
    ensures SelectedUpTo(k, codes1) == SelectedUpTo(k, codes2)
  {
    if k > 0 {
      SelectedUpToSameNames(k - 1, codes1, codes2);
    }
  }

  /** Only which known codes are listed matters: not their order, not
      repetitions, not other strings. */
  lemma SelectionIgnoresOrderAndDuplicates(codes1: seq<string>, codes2: seq<string>)
    requires forall c :: CodeName(c) in codes1 <==> CodeName(c) in codes2
    ensures SelectedCodes(codes1) == SelectedCodes(codes2)
  {
    SelectedUpToSameNames(|Canonical|, codes1, codes2);
  }

  /** An unknown code, such as "e0002", "e0010" or junk, is ignored. */
  lemma UnknownCodeIgnored(codes: seq<string>, unknown: string)
    requires forall c :: CodeName(c) != unknown
    ensures SelectedCodes(codes + [unknown]) == SelectedCodes(codes)
  {
    forall c ensures CodeName(c) in codes + [unknown] <==> CodeName(c) in codes {
      assert CodeName(c) in codes + [unknown] <==> CodeName(c) in codes || CodeName(c) == unknown;
    }
    SelectionIgnoresOrderAndDuplicates(codes + [unknown], codes);
  }

  // ---------------------------------------------------------------------
  // The selection written out as the chain of eight `if`s
  // ---------------------------------------------------------------------

  /** Mapping commutes with one `if (b) push` step. */
  lemma MapCodesPush<T>(acc: seq<Code>, b: bool, c: Code, f: Code -> T)
    ensures MapCodes(Push(acc, b, c), f) == Push(MapCodes(acc, f), b, f(c))
  {
    if b {
      assert (acc + [c])[..|acc|] == acc;
    }
  }

  lemma MapSelectedStep<T>(k: nat, codes: seq<string>, f: Code -> T)
    requires k < |Canonical|
    ensures MapCodes(SelectedUpTo(k + 1, codes), f) ==
            Push(MapCodes(SelectedUpTo(k, codes), f), CodeName(Canonical[k]) in codes, f(Canonical[k]))
  {
    MapCodesPush(SelectedUpTo(k, codes), CodeName(Canonical[k]) in codes, Canonical[k], f);
  }

  /** The first four `if (includes) push` steps. */
  lemma FirstFourPushed<T>(codes: seq<string>, f: Code -> T)
    ensures MapCodes(SelectedUpTo(4, codes), f) ==
              Push(Push(Push(Push([],
                "e0001" in codes, f(E0001)), "e0003" in codes, f(E0003)),
                "e0004" in codes, f(E0004)), "e0005" in codes, f(E0005))
  {
    var m0 := MapCodes(SelectedUpTo(0, codes), f);
    assert m0 == [];
    var m1 := MapCodes(SelectedUpTo(1, codes), f);
    assert m1 == Push(m0, "e0001" in codes, f(E0001)) by { MapSelectedStep(0, codes, f); }
    var m2 := MapCodes(SelectedUpTo(2, codes), f);
    assert m2 == Push(m1, "e0003" in codes, f(E0003)) by { MapSelectedStep(1, codes, f); }
    var m3 := MapCodes(SelectedUpTo(3, codes), f);
    assert m3 == Push(m2, "e0004" in codes, f(E0004)) by { MapSelectedStep(2, codes, f); }
    assert MapCodes(SelectedUpTo(4, codes), f) == Push(m3, "e0005" in codes, f(E0005)) by { MapSelectedStep(3, codes, f); }
  }

  /** The last four `if (includes) push` steps. */
  lemma LastFourPushed<T>(codes: seq<string>, f: Code -> T)
    ensures MapCodes(SelectedUpTo(8, codes), f) ==
              Push(Push(Push(Push(MapCodes(SelectedUpTo(4, codes), f),
                "e0006" in codes, f(E0006)), "e0007" in codes, f(E0007)),
                "e0008" in codes, f(E0008)), "e0009" in codes, f(E0009))
  {
    var m4 := MapCodes(SelectedUpTo(4, codes), f);
    var m5 := MapCodes(SelectedUpTo(5, codes), f);
    assert m5 == Push(m4, "e0006" in codes, f(E0006)) by { MapSelectedStep(4, codes, f); }
    var m6 := MapCodes(SelectedUpTo(6, codes), f);
    assert m6 == Push(m5, "e0007" in codes, f(E0007)) by { MapSelectedStep(5, codes, f); }
    var m7 := MapCodes(SelectedUpTo(7, codes), f);
    assert m7 == Push(m6, "e0008" in codes, f(E0008)) by { MapSelectedStep(6, codes, f); }
    assert MapCodes(SelectedUpTo(8, codes), f) == Push(m7, "e0009" in codes, f(E0009)) by { MapSelectedStep(7, codes, f); }
  }

  /** Running `f` on the selection is what eight `if (includes) push`
      steps in canonical order produce. */
  lemma SelectionPushed<T>(codes: seq<string>, f: Code -> T)
    ensures MapCodes(SelectedCodes(codes), f) ==
              Push(Push(Push(Push(Push(Push(Push(Push([],
                "e0001" in codes, f(E0001)), "e0003" in codes, f(E0003)),
                "e0004" in codes, f(E0004)), "e0005" in codes, f(E0005)),
                "e0006" in codes, f(E0006)), "e0007" in codes, f(E0007)),
                "e0008" in codes, f(E0008)), "e0009" in codes, f(E0009))
  {
    FirstFourPushed(codes, f);
    LastFourPushed(codes, f);
  }
}
