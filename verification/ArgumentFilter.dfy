/** Which of the local program's arguments are passed on to the remote one. */
module ArgumentFilter {

  predicate EndsWith(s: string, suffix: string) { |s| >= |suffix| && s[|s| - |suffix|..] == suffix }
  predicate IsEntryPoint(arg: string) { EndsWith(arg, ".js") || EndsWith(arg, ".mjs") }
  predicate TakesLocalPath(arg: string) { arg == "--plugin-dir" || arg == "--setting-sources" }

  /** An argument is a flag's value when a flag that is not itself such a value comes before it. */
  predicate IsValue(args: seq<string>, i: nat)
    requires i <= |args|
  {
    i > 0 && TakesLocalPath(args[i - 1]) && !IsValue(args, i - 1)
  }

  predicate Kept(args: seq<string>, i: nat)
    requires i < |args|
  {
    !IsValue(args, i) && !TakesLocalPath(args[i]) && !(i == 0 && IsEntryPoint(args[i]))
  }

  /** The kept ones among the first `n` arguments. */
  function KeptArgs(args: seq<string>, n: nat): (r: seq<string>)
    requires n <= |args|
  {
    if n == 0 then [] else KeptArgs(args, n - 1) + if Kept(args, n - 1) then [args[n - 1]] else []
  }

  function Filtered(args: seq<string>): (r: seq<string>) { KeptArgs(args, |args|) }

  method FilterArgs(args: seq<string>) returns (filtered: seq<string>)
    ensures filtered == Filtered(args)
  {
    filtered := [];
    var skipNext := false;
    for i := 0 to |args|
      invariant filtered == KeptArgs(args, i) && skipNext == IsValue(args, i)
    {
      if skipNext {
        skipNext := false;
        continue;
      }
      if i == 0 && IsEntryPoint(args[i]) {
        hide IsEntryPoint;
        EntryPointIsNoFlag(args[i]);
        continue;
      }
      if TakesLocalPath(args[i]) {
        skipNext := true;
        continue;
      }
      filtered := filtered + [args[i]];
    }
  }

  lemma EntryPointIsNoFlag(arg: string)
    requires IsEntryPoint(arg)
    ensures !TakesLocalPath(arg)
  {
    assert arg[|arg| - 1] == 's' && arg[|arg| - 2] == 'j';
  }

  lemma {:induction false} NoFlagsLeft(args: seq<string>, n: nat)
    requires n <= |args|
    ensures forall x | x in KeptArgs(args, n) :: !TakesLocalPath(x) && x in args
    decreases n
  {
    if n > 0 { NoFlagsLeft(args, n - 1); }
  }

  lemma {:induction false} NoFlagsAllKept(args: seq<string>, n: nat)
    requires n <= |args| && forall x | x in args :: !TakesLocalPath(x)
    ensures n > 0 ==> KeptArgs(args, n) == if IsEntryPoint(args[0]) then args[1..n] else args[..n]
    decreases n
  {
    if n > 1 {
      NoFlagsAllKept(args, n - 1);
      assert !IsValue(args, n - 1);
      assert args[..n] == args[..n - 1] + [args[n - 1]] && args[1..n] == args[1..n - 1] + [args[n - 1]];
    }
  }

  predicate FirstKept(args: seq<string>, i: nat)
    requires i < |args|
  {
    Kept(args, i) && forall j | 0 <= j < i :: !Kept(args, j)
  }

  lemma {:induction false} HeadIsFirstKept(args: seq<string>, n: nat, i: nat)
    requires i < n <= |args| && FirstKept(args, i)
    ensures KeptArgs(args, n) != [] && KeptArgs(args, n)[0] == args[i]
    decreases n
  {
    if i < n - 1 { HeadIsFirstKept(args, n - 1, i); } else { NoneKept(args, i); }
  }

  lemma {:induction false} NoneKept(args: seq<string>, n: nat)
    requires n <= |args| && forall j | 0 <= j < n :: !Kept(args, j)
    ensures KeptArgs(args, n) == []
    decreases n
  {
    if n > 0 { NoneKept(args, n - 1); }
  }

  /** A kept argument has a first kept one before it or is the first itself. */
  lemma {:induction false} SomeFirstKept(args: seq<string>, n: nat) returns (i: nat)
    requires n <= |args| && KeptArgs(args, n) != []
    ensures i < n && FirstKept(args, i)
    decreases n
  {
    if KeptArgs(args, n - 1) != [] {
      i := SomeFirstKept(args, n - 1);
    } else {
      i := n - 1;
      forall j | 0 <= j < i ensures !Kept(args, j) { KeptIsListed(args, i, j); }
    }
  }

  lemma {:induction false} KeptIsListed(args: seq<string>, n: nat, j: nat)
    requires j < n <= |args|
    ensures Kept(args, j) ==> KeptArgs(args, n) != []
    decreases n
  {
    if j < n - 1 { KeptIsListed(args, n - 1, j); }
  }

  /** Filtering again changes nothing if and only if the first argument that is kept does not look like an entry
      point. */
  lemma FilteringAgain(args: seq<string>)
    ensures Filtered(Filtered(args)) == Filtered(args)
            <==> forall i | 0 <= i < |args| && FirstKept(args, i) :: !IsEntryPoint(args[i])
  {
    hide Kept, IsEntryPoint;
    var once := Filtered(args);
    NoFlagsLeft(args, |args|);
    NoFlagsAllKept(once, |once|);
    assert once[..|once|] == once;
    forall i | 0 <= i < |args| && FirstKept(args, i) ensures once != [] && once[0] == args[i] {
      HeadIsFirstKept(args, |args|, i);
    }
    if once != [] { var i := SomeFirstKept(args, |args|); }
  }

  /** Two scripts: the first filtering drops the entry point, the second takes the next script for one. */
  lemma FilteringAgainChanges()
    ensures Filtered(["a.js", "b.js"]) == ["b.js"] && Filtered(Filtered(["a.js", "b.js"])) == []
  {
    var args := ["a.js", "b.js"];
    assert EndsWith("a.js", ".js") && EndsWith("b.js", ".js");
    assert KeptArgs(args, 1) == [] && KeptArgs(args, 2) == ["b.js"];
    assert KeptArgs(["b.js"], 1) == [];
  }

  // ---- what is dropped ----

  /** Arguments that follow others: the entry point stands first or nowhere. */
  function KeptLater(args: seq<string>, n: nat): (r: seq<string>)
    requires n <= |args|
  {
    if n == 0 then []
    else KeptLater(args, n - 1) + if !IsValue(args, n - 1) && !TakesLocalPath(args[n - 1]) then [args[n - 1]] else []
  }

  /** The arguments end with a flag that still waits for its value. */
  predicate EndsOpen(args: seq<string>) { IsValue(args, |args|) }

  lemma {:induction false} IsValueOf(a: seq<string>, b: seq<string>, i: nat)
    requires i <= |a|
    ensures IsValue(a + b, i) == IsValue(a, i)
    decreases i
  {
    if i > 0 { IsValueOf(a, b, i - 1); }
  }

  lemma {:induction false} IsValueLater(a: seq<string>, b: seq<string>, i: nat)
    requires i <= |b| && !EndsOpen(a)
    ensures IsValue(a + b, |a| + i) == IsValue(b, i)
    decreases i
  {
    if i == 0 { IsValueOf(a, b, |a|); } else { IsValueLater(a, b, i - 1); }
  }

  lemma {:induction false} KeptOf(a: seq<string>, b: seq<string>, n: nat)
    requires n <= |a|
    ensures KeptArgs(a + b, n) == KeptArgs(a, n)
    decreases n
  {
    if n > 0 {
      KeptOf(a, b, n - 1);
      IsValueOf(a, b, n - 1);
    }
  }

  lemma {:induction false} KeptSplits(a: seq<string>, b: seq<string>, n: nat)
    requires n <= |b| && a != [] && !EndsOpen(a)
    ensures KeptArgs(a + b, |a| + n) == Filtered(a) + KeptLater(b, n)
    decreases n
  {
    if n == 0 {
      KeptOf(a, b, |a|);
    } else {
      KeptSplits(a, b, n - 1);
      IsValueLater(a, b, n - 1);
    }
  }

  lemma {:induction false} PairIsSkipped(flag: string, value: string, rest: seq<string>, n: nat)
    requires TakesLocalPath(flag) && n <= |rest|
    ensures KeptLater([flag, value] + rest, n + 2) == KeptLater(rest, n)
    ensures KeptArgs([flag, value] + rest, n + 2) == KeptLater(rest, n)
    decreases n
  {
    var all := [flag, value] + rest;
    var pair := [flag, value];
    assert pair[0] == flag && !IsValue(pair, 0) && IsValue(pair, 1) && !IsValue(pair, 2);
    if n > 0 {
      PairIsSkipped(flag, value, rest, n - 1);
      IsValueLater([flag, value], rest, n - 1);
    } else {
      assert IsValue(all, 1) && !IsValue(all, 0);
      assert KeptLater(all, 1) == [] && KeptArgs(all, 1) == [] by { assert !Kept(all, 0); }
      assert !Kept(all, 1);
    }
  }

  /** A flag and the value after it can be left out anywhere behind the first argument without changing what is passed
      on, whatever the value looks like. */
  lemma FlagTakesItsValue(before: seq<string>, flag: string, value: string, after: seq<string>)
    requires TakesLocalPath(flag) && before != [] && !EndsOpen(before)
    ensures Filtered(before + [flag, value] + after) == Filtered(before + after)
  {
    var pair := [flag, value] + after;
    assert before + [flag, value] + after == before + pair;
    KeptSplits(before, pair, |pair|);
    KeptSplits(before, after, |after|);
    PairIsSkipped(flag, value, after, |after|);
  }

  /** In front they hide the place of the entry point: what follows is passed on as it is behind any plain argument. */
  lemma LeadingFlag(flag: string, value: string, after: seq<string>, plain: string)
    requires TakesLocalPath(flag) && !TakesLocalPath(plain) && !IsEntryPoint(plain)
    ensures Filtered([plain] + after) == [plain] + Filtered([flag, value] + after)
  {
    hide IsEntryPoint, TakesLocalPath;
    assert !EndsOpen([plain]) && Kept([plain], 0) && KeptArgs([plain], 0) == [] && Filtered([plain]) == [plain];
    KeptSplits([plain], after, |after|);
    PairIsSkipped(flag, value, after, |after|);
  }

  /** A last flag without a value is dropped. */
  lemma TrailingFlag(before: seq<string>, flag: string)
    requires TakesLocalPath(flag)
    ensures Filtered(before + [flag]) == Filtered(before)
  {
    KeptOf(before, [flag], |before|);
  }

  /** Without such flags everything but a leading entry point is passed on. */
  lemma PlainArgsPass(args: seq<string>)
    requires forall x | x in args :: !TakesLocalPath(x)
    ensures Filtered(args) == if args != [] && IsEntryPoint(args[0]) then args[1..] else args
  {
    hide IsEntryPoint, TakesLocalPath;
    NoFlagsAllKept(args, |args|);
    assert args[..|args|] == args;
  }
}
