/** Standing workers down (task/mod.rs). */
module Retiring {
  import opened Common
  import opened Governors
  import opened Plans

  // Each tick cancels as many tokens as there are live workers too many, by a count that lags behind,
  // and over a list that keeps the tokens of workers long gone.

  /** Workers too many; at least one is always meant to stay. */
  function Excess(live: nat, target: nat): nat {
    if live > Max(target, 1) then live - Max(target, 1) else 0
  }

  /** The first `n` tokens that are not cancelled yet. */
  function CancelFirst(tokens: seq<bool>, n: nat): (r: seq<bool>)
    ensures |r| == |tokens|
  {
    if |tokens| == 0 || n == 0 then tokens
    else if tokens[0] then [true] + CancelFirst(tokens[1..], n)
    else [true] + CancelFirst(tokens[1..], n - 1)
  }

  /** Tokens not cancelled, whether or not their worker is still there. */
  function Staying(tokens: seq<bool>): nat {
    if |tokens| == 0 then 0 else (if tokens[0] then 0 else 1) + Staying(tokens[1..])
  }

  lemma {:induction false} NobodyStays(tokens: seq<bool>, n: nat)
    requires forall i :: 0 <= i < |tokens| ==> tokens[i]
    ensures CancelFirst(tokens, n) == tokens
    decreases |tokens|
  {
    if |tokens| > 0 {
      NobodyStays(tokens[1..], n);
      assert tokens == [tokens[0]] + tokens[1..];
    }
  }

  /** Cancelling the first one left, and then the rest. */
  lemma {:induction false} OneAtATime(tokens: seq<bool>, i: nat, n: nat)
    requires i < |tokens| && !tokens[i] && n > 0
    requires forall j :: 0 <= j < i ==> tokens[j]
    ensures CancelFirst(tokens, n) == CancelFirst(tokens[i := true], n - 1)
    decreases i
  {
    var t := tokens[i := true];
    if i == 0 {
      assert t[1..] == tokens[1..];
    } else {
      OneAtATime(tokens[1..], i - 1, n);
      assert t[1..] == tokens[1..][i - 1 := true];
    }
  }

  method FirstNotCancelled(tokens: array<bool>) returns (i: nat)
    ensures i <= tokens.Length
    ensures forall j :: 0 <= j < i ==> tokens[j]
    ensures i < tokens.Length ==> !tokens[i]
  {
    i := 0;
    while i < tokens.Length && tokens[i]
      invariant i <= tokens.Length
      invariant forall j :: 0 <= j < i ==> tokens[j]
    {
      i := i + 1;
    }
  }

  method RetireDownTo(tokens: array<bool>, live: nat, target: nat)
    modifies tokens
    ensures tokens[..] == CancelFirst(old(tokens[..]), Excess(live, target))
    ensures Staying(tokens[..]) == Since(old(Staying(tokens[..])), Since(live, Max(target, 1)))
    ensures forall i :: 0 <= i < tokens.Length && old(tokens[i]) ==> tokens[i]
    ensures forall i, j :: 0 <= i < j < tokens.Length && tokens[j] && !old(tokens[j]) ==> tokens[i]
  {
    CancelsTheExcess(tokens[..], Excess(live, target));
    CancelsInOrder(tokens[..], Excess(live, target));
    var excess := Excess(live, target);
    while excess > 0
      invariant CancelFirst(tokens[..], excess) == CancelFirst(old(tokens[..]), Excess(live, target))
    {
      var i := FirstNotCancelled(tokens);
      if i == tokens.Length {
        NobodyStays(tokens[..], excess);
        break;
      }
      ghost var was := tokens[..];
      OneAtATime(was, i, excess);
      tokens[i] := true;
      assert tokens[..] == was[i := true];
      excess := excess - 1;
    }
  }

  // ----- what it does to the tokens -----

  /** Nothing is cancelled behind a token that is not. */
  lemma {:induction false} CancelsInOrder(tokens: seq<bool>, n: nat)
    ensures forall i, j :: 0 <= i < j < |tokens| && CancelFirst(tokens, n)[j] && !tokens[j] ==> CancelFirst(tokens, n)[i]
    decreases |tokens|
  {
    if |tokens| > 0 && n > 0 {
      var m: nat := if tokens[0] then n else n - 1;
      CancelsInOrder(tokens[1..], m);
      var r := CancelFirst(tokens, n);
      forall i, j | 0 <= i < j < |tokens| && r[j] && !tokens[j]
        ensures r[i]
      {
        if i > 0 {
          assert r[j] == CancelFirst(tokens[1..], m)[j - 1] && r[i] == CancelFirst(tokens[1..], m)[i - 1];
        }
      }
    }
  }

  /** It cancels exactly as many tokens as asked, or all of them, and never the same one twice. */
  lemma {:induction false} CancelsTheExcess(tokens: seq<bool>, n: nat)
    ensures Staying(CancelFirst(tokens, n)) == if Staying(tokens) >= n then Staying(tokens) - n else 0
    ensures forall i :: 0 <= i < |tokens| && tokens[i] ==> CancelFirst(tokens, n)[i]
    decreases |tokens|
  {
    if |tokens| > 0 && n > 0 {
      var m: nat := if tokens[0] then n else n - 1;
      CancelsTheExcess(tokens[1..], m);
      var r := CancelFirst(tokens, n);
      assert r[1..] == CancelFirst(tokens[1..], m);
      forall i | 0 <= i < |tokens| && tokens[i]
        ensures r[i]
      {
        assert i > 0 ==> tokens[1..][i - 1];
      }
    }
  }

  /** One after the other is both at once. */
  lemma {:induction false} CancelTwice(tokens: seq<bool>, a: nat, b: nat)
    ensures CancelFirst(CancelFirst(tokens, a), b) == CancelFirst(tokens, a + b)
    decreases |tokens|
  {
    if |tokens| > 0 && a > 0 {
      var m: nat := if tokens[0] then a else a - 1;
      CancelTwice(tokens[1..], m, b);
      var r := CancelFirst(tokens, a);
      assert r[1..] == CancelFirst(tokens[1..], m);
      PassCancelled(r, b);
    }
  }

  lemma PassCancelled(tokens: seq<bool>, n: nat)
    requires |tokens| > 0 && tokens[0]
    ensures CancelFirst(tokens, n) == [true] + CancelFirst(tokens[1..], n)
  {
    if n == 0 {
      assert tokens == [tokens[0]] + tokens[1..];
    }
  }

  /** A token goes if it is among the first `n` not cancelled yet. */
  lemma {:induction false} CancelledIff(tokens: seq<bool>, n: nat, i: nat)
    requires i < |tokens|
    ensures CancelFirst(tokens, n)[i] <==> tokens[i] || Staying(tokens[..i + 1]) <= n
    decreases |tokens|
  {
    assert tokens[..i + 1][1..] == tokens[1..][..i];
    if n > 0 {
      var m: nat := if tokens[0] then n else n - 1;
      if i > 0 {
        CancelledIff(tokens[1..], m, i - 1);
        assert CancelFirst(tokens, n)[i] == CancelFirst(tokens[1..], m)[i - 1];
      }
    } else {
      StayingCountsIt(tokens[..i + 1]);
    }
  }

  lemma {:induction false} StayingCountsIt(tokens: seq<bool>)
    requires |tokens| > 0
    ensures !tokens[|tokens| - 1] ==> Staying(tokens) > 0
    decreases |tokens|
  {
    if |tokens| > 1 {
      StayingCountsIt(tokens[1..]);
    }
  }

  lemma {:induction false} StayingGrows(tokens: seq<bool>, i: nat, j: nat)
    requires i <= j <= |tokens|
    ensures Staying(tokens[..i]) <= Staying(tokens[..j])
    decreases i
  {
    if i > 0 {
      StayingGrows(tokens[1..], i - 1, j - 1);
      assert tokens[..i][1..] == tokens[1..][..i - 1] && tokens[..j][1..] == tokens[1..][..j - 1];
    }
  }

  // ----- what it does to the workers -----

  /** Tokens after ticks with these excesses, nobody being spawned in between. */
  function Ticks(tokens: seq<bool>, excesses: seq<nat>): (r: seq<bool>)
    ensures |r| == |tokens|
  {
    if |excesses| == 0 then tokens
    else CancelFirst(Ticks(tokens, excesses[..|excesses| - 1]), excesses[|excesses| - 1])
  }

  function Sum(excesses: seq<nat>): nat {
    if |excesses| == 0 then 0 else Sum(excesses[..|excesses| - 1]) + excesses[|excesses| - 1]
  }

  lemma {:induction false} TicksAddUp(tokens: seq<bool>, excesses: seq<nat>)
    ensures Ticks(tokens, excesses) == CancelFirst(tokens, Sum(excesses))
    decreases |excesses|
  {
    if |excesses| > 0 {
      var n := |excesses| - 1;
      TicksAddUp(tokens, excesses[..n]);
      CancelTwice(tokens, Sum(excesses[..n]), excesses[n]);
    }
  }

  /** The last live worker whose token is not cancelled, or -1. */
  function LastLive(tokens: seq<bool>, live: seq<bool>): (i: int)
    requires |tokens| == |live|
    ensures -1 <= i < |tokens|
    ensures i >= 0 ==> live[i] && !tokens[i]
    ensures forall j :: i < j < |tokens| ==> !(live[j] && !tokens[j])
  {
    if |tokens| == 0 then -1
    else if live[|live| - 1] && !tokens[|tokens| - 1] then |tokens| - 1
    else LastLive(tokens[..|tokens| - 1], live[..|live| - 1])
  }

  /** Some live worker has not been told to stop. */
  ghost predicate SomebodyStays(tokens: seq<bool>, live: seq<bool>)
    requires |tokens| == |live|
  {
    exists i :: 0 <= i < |tokens| && live[i] && !tokens[i]
  }

  /** A worker told to stop counts as live until its claim is done, so the ticks in the meantime
      each see an excess again and cancel further down the list; and tokens of workers that are
      gone take up cancellations too.  Of the workers in `live`, one that may go on is left
      exactly if the excesses add up to less than the number of uncancelled tokens up to and
      including the last of them. */
  lemma SomebodyStaysIff(tokens: seq<bool>, live: seq<bool>, excesses: seq<nat>)
    requires |tokens| == |live|
    ensures SomebodyStays(Ticks(tokens, excesses), live) <==>
      LastLive(tokens, live) >= 0 && Sum(excesses) < Staying(tokens[..LastLive(tokens, live) + 1])
  {
    TicksAddUp(tokens, excesses);
    var n, last, after := Sum(excesses), LastLive(tokens, live), CancelFirst(tokens, Sum(excesses));
    if SomebodyStays(after, live) {
      var i :| 0 <= i < |tokens| && live[i] && !after[i];
      CancelledIff(tokens, n, i);
      StayingGrows(tokens, i + 1, last + 1);
    }
    if last >= 0 && n < Staying(tokens[..last + 1]) {
      CancelledIff(tokens, n, last);
      assert live[last] && !after[last];
    }
  }

  /** Two live workers and one long gone, a target of one, two ticks: both are told to stop, and
      an uncancelled token is left that nobody listens to. */
  lemma TwoTicksMayStopEverybody()
    ensures Excess(2, 1) == 1
    ensures !SomebodyStays(Ticks([false, false, false], [Excess(2, 1), Excess(2, 1)]), [true, true, false])
    ensures Staying(Ticks([false, false, false], [Excess(2, 1), Excess(2, 1)])) == 1
  {
    var tokens, live, excesses: seq<nat> := [false, false, false], [true, true, false], [1, 1];
    assert excesses[..1] == [1] && [1][..0] == [];
    assert live[..2] == [true, true];
    TicksAddUp(tokens, excesses);
    SomebodyStaysIff(tokens, live, excesses);
    CancelsTheExcess(tokens, 2);
    assert tokens[..2] == [false, false] && [false, false][1..] == [false] && [false][1..] == [];
    assert tokens[1..] == [false, false];
  }

  /** The other way round, a worker long gone takes the cancellation and nobody is told. */
  lemma GoneWorkersTakeCancellations()
    ensures Excess(2, 1) == 1
    ensures CancelFirst([false, false, false], Excess(2, 1)) == [true, false, false]
  {
  }

  // ----- the endgame -----

  /** The excess of an endgame tick. */
  function EndgameExcess(k: nat, live: nat, remaining: nat): nat {
    match EndgameTarget(k, remaining)
    case None => 0
    case Some(target) => Excess(live, target)
  }

  lemma EndgameExcessIs(k: nat, live: nat, remaining: nat)
    requires k >= 1
    ensures remaining >= 2 * MIN_SEGMENT ==> EndgameExcess(k, live, remaining) == 0
    ensures remaining < MIN_SEGMENT ==> EndgameExcess(k, live, remaining) == Since(live, 1)
    ensures MIN_SEGMENT <= remaining < 2 * MIN_SEGMENT ==> EndgameExcess(k, live, remaining) == Since(live, Min(2, k))
  {
  }

  function Fresh(n: nat): (tokens: seq<bool>)
    ensures |tokens| == n && forall i :: 0 <= i < n ==> !tokens[i]
  {
    seq(n, _ => false)
  }

  lemma {:induction false} FreshStay(n: nat)
    ensures Staying(Fresh(n)) == n
  {
    if n > 0 {
      FreshStay(n - 1);
      assert Fresh(n)[1..] == Fresh(n - 1);
    }
  }

  /** `n` workers, all live, and endgame ticks that all fall before any of them is done: one that
      may go on is left exactly if the ticks' excesses do not use them up.  Near the very end, from
      two workers on, a second tick does, and there is nobody to take what is returned. */
  lemma EndgameLeavesSomebodyIff(k: nat, n: nat, remaining: nat, ticks: nat)
    requires k >= 1 && n >= 1
    ensures var left := SomebodyStays(Ticks(Fresh(n), Repeated(EndgameExcess(k, n, remaining), ticks)), seq(n, _ => true));
      && (left <==> ticks * EndgameExcess(k, n, remaining) < n)
      && (remaining < MIN_SEGMENT && n >= 2 ==> (left <==> ticks <= 1))
      && (remaining >= 2 * MIN_SEGMENT ==> left)
  {
    var tokens, live := Fresh(n), seq(n, _ => true);
    var e := EndgameExcess(k, n, remaining);
    SomebodyStaysIff(tokens, live, Repeated(e, ticks));
    SumRepeated(e, ticks);
    FreshStay(n);
    assert tokens[..n] == tokens;
    assert live[n - 1] && !tokens[n - 1];
    assert LastLive(tokens, live) == n - 1;
    EndgameExcessIs(k, n, remaining);
    if remaining < MIN_SEGMENT && ticks >= 2 {
      assert ticks * (n - 1) == 2 * (n - 1) + (ticks - 2) * (n - 1);
    }
  }

  function Repeated(e: nat, n: nat): seq<nat> {
    seq(n, _ => e)
  }

  lemma {:induction false} SumRepeated(e: nat, n: nat)
    ensures Sum(Repeated(e, n)) == n * e
  {
    if n > 0 {
      SumRepeated(e, n - 1);
      assert Repeated(e, n)[..n - 1] == Repeated(e, n - 1);
    }
  }
}
