/** The CLI argument list as a map from flags to values: `argument`, `setArgument`, `removeArgument`. */
module Arguments {
  import opened Core
  import opened Text

  const DASHES := "--"

  /** A flag name: two dashes, no equals sign. */
  predicate IsFlag(flag: string)
  {
    HasPrefix(flag, DASHES) && '=' !in flag
  }

  predicate IsValue(s: string)
  {
    !HasPrefix(s, DASHES)
  }

  /** `arg` is the joined form `flag=...`. */
  predicate Joins(arg: string, flag: string)
  {
    HasPrefix(arg, flag + "=")
  }

  predicate Occurs(args: seq<string>, i: nat, flag: string)
  {
    i < |args| && (args[i] == flag || Joins(args[i], flag))
  }

  /** Every spaced occurrence of the flag is followed by a value. */
  predicate WellFormed(args: seq<string>, flag: string)
  {
    forall i :: 0 <= i < |args| && args[i] == flag ==> i + 1 < |args| && IsValue(args[i + 1])
  }

  function ValueAt(args: seq<string>, i: nat, flag: string): string
    requires Occurs(args, i, flag)
  {
    if Joins(args[i], flag) then args[i][|flag| + 1..]
    else if i + 1 < |args| && IsValue(args[i + 1]) then args[i + 1]
    else ""
  }

  /** The value of the first occurrence. */
  function Get(args: seq<string>, flag: string, from: nat := 0): Option<string>
    decreases |args| - from
  {
    if from >= |args| then None
    else if Occurs(args, from, flag) then Some(ValueAt(args, from, flag))
    else Get(args, flag, from + 1)
  }

  lemma NotBoth(arg: string, flag: string)
    ensures !(arg == flag && Joins(arg, flag))
  {
    if Joins(arg, flag) {
      assert |arg| > |flag|;
    }
  }

  /** An argument up to its first equals sign. */
  function Head(arg: string): string
  {
    if arg == "" || arg[0] == '=' then "" else [arg[0]] + Head(arg[1..])
  }

  lemma {:induction false} HeadOfFlag(flag: string, rest: string)
    requires '=' !in flag && (rest == "" || rest[0] == '=')
    ensures Head(flag + rest) == flag
  {
    if flag == "" {
      assert flag + rest == rest;
    } else {
      assert (flag + rest)[1..] == flag[1..] + rest;
      assert flag == [flag[0]] + flag[1..];
      HeadOfFlag(flag[1..], rest);
    }
  }

  lemma HeadDecides(arg: string, flag: string)
    requires IsFlag(flag)
    ensures arg == flag || Joins(arg, flag) ==> Head(arg) == flag
  {
    if arg == flag {
      HeadOfFlag(flag, "");
      assert flag + "" == flag;
    } else if Joins(arg, flag) {
      HeadOfFlag(flag, arg[|flag|..]);
      assert arg == flag + arg[|flag|..];
    }
  }

  /** No argument is an occurrence of two flags, and no value is one of any. */
  lemma OneFlag(arg: string, f: string, g: string)
    requires IsFlag(f) && IsFlag(g) && f != g
    ensures arg == f || Joins(arg, f) ==> arg != g && !Joins(arg, g)
    ensures IsValue(arg) ==> arg != g && !Joins(arg, g)
  {
    HeadDecides(arg, f);
    HeadDecides(arg, g);
    ValueIsNoFlag(arg, g);
  }

  lemma ValueIsNoFlag(arg: string, flag: string)
    requires IsFlag(flag)
    ensures arg == flag || Joins(arg, flag) ==> HasPrefix(arg, DASHES)
  {
    if Joins(arg, flag) {
      assert flag <= flag + "=" <= arg;
    }
  }

  method Argument(args: seq<string>, flag: string) returns (value: Option<string>)
    ensures value == Get(args, flag)
  {
    for i := 0 to |args|
      invariant Get(args, flag) == Get(args, flag, i)
    {
      if HasPrefix(args[i], flag + "=") {
        return Some(args[i][|flag| + 1..]);
      }
      if args[i] == flag {
        NotBoth(args[i], flag);
        if i + 1 < |args| && !HasPrefix(args[i + 1], DASHES) {
          return Some(args[i + 1]);
        }
        return Some("");
      }
    }
    value := None;
  }

  // ---- set ----------------------------------------------------------------------------------

  /** The first place `setArgument` can write: a joined occurrence, or one followed by anything. */
  predicate Settable(args: seq<string>, i: nat, flag: string)
  {
    i < |args| && (Joins(args[i], flag) || (args[i] == flag && i + 1 < |args|))
  }

  function Set(args: seq<string>, flag: string, value: string, from: nat := 0): seq<string>
    decreases |args| - from
  {
    if from >= |args| then args + [flag, value]
    else if Joins(args[from], flag) then args[from := flag + "=" + value]
    else if args[from] == flag && from + 1 < |args| then args[from + 1 := value]
    else Set(args, flag, value, from + 1)
  }

  /** Writes in place when the flag is there, appends a copy otherwise. */
  method SetArgument(a: array<string>, flag: string, value: string) returns (r: array<string>)
    modifies a
    ensures r[..] == Set(old(a[..]), flag, value)
    ensures r == a || (fresh(r) && a[..] == old(a[..]))
    ensures r == a <==> exists i: nat :: Settable(old(a[..]), i, flag)
  {
    ghost var was := a[..];
    for i := 0 to a.Length
      invariant a[..] == was
      invariant Set(was, flag, value) == Set(was, flag, value, i)
      invariant forall k: nat :: k < i ==> !Settable(was, k, flag)
    {
      assert a[i] == was[i];
      if HasPrefix(a[i], flag + "=") {
        assert Settable(was, i, flag);
        a[i] := flag + "=" + value;
        return a;
      }
      if a[i] == flag && i + 1 < a.Length {
        assert Settable(was, i, flag);
        a[i + 1] := value;
        return a;
      }
    }
    r := new string[a.Length + 2](i requires 0 <= i < a.Length + 2 reads a =>
      if i < a.Length then a[i] else if i == a.Length then flag else value);
    assert r[..] == was + [flag, value];
  }

  /** `i` is the first occurrence of the flag. */
  predicate FirstAt(args: seq<string>, i: nat, flag: string)
  {
    Occurs(args, i, flag) && forall k: nat :: k < i ==> !Occurs(args, k, flag)
  }

  predicate Absent(args: seq<string>, flag: string)
  {
    forall k: nat :: k < |args| ==> !Occurs(args, k, flag)
  }

  lemma {:induction false} FirstIsGot(args: seq<string>, i: nat, flag: string, from: nat)
    requires FirstAt(args, i, flag) && from <= i
    ensures Get(args, flag, from) == Some(ValueAt(args, i, flag))
    decreases i - from
  {
    if from < i {
      FirstIsGot(args, i, flag, from + 1);
    }
  }

  lemma {:induction false} AbsentIsNone(args: seq<string>, flag: string, from: nat)
    ensures Absent(args, flag) ==> Get(args, flag, from) == None
    decreases |args| - from
  {
    if from < |args| {
      AbsentIsNone(args, flag, from + 1);
    }
  }

  lemma {:induction false} First(args: seq<string>, flag: string, from: nat) returns (i: nat)
    requires exists k: nat :: from <= k && Occurs(args, k, flag)
    requires forall k: nat :: k < from ==> !Occurs(args, k, flag)
    ensures FirstAt(args, i, flag)
    decreases |args| - from
  {
    if Occurs(args, from, flag) {
      i := from;
    } else {
      i := First(args, flag, from + 1);
    }
  }

  lemma GetMeaning(args: seq<string>, flag: string)
    ensures Get(args, flag) == None <==> Absent(args, flag)
    ensures forall i: nat :: FirstAt(args, i, flag) ==> Get(args, flag) == Some(ValueAt(args, i, flag))
  {
    AbsentIsNone(args, flag, 0);
    forall i: nat | FirstAt(args, i, flag) ensures Get(args, flag) == Some(ValueAt(args, i, flag)) {
      FirstIsGot(args, i, flag, 0);
    }
    if !Absent(args, flag) {
      var i := First(args, flag, 0);
    }
  }

  /** What `setArgument` does, by the first occurrence: joined, spaced, dangling at the end, or none. */
  lemma {:induction false} SetMeaning(args: seq<string>, flag: string, value: string, from: nat)
    requires from <= |args| && forall k: nat :: k < from ==> !Occurs(args, k, flag)
    ensures forall i: nat :: FirstAt(args, i, flag) ==>
              Set(args, flag, value, from)
                == if Joins(args[i], flag) then args[i := flag + "=" + value]
                   else if i + 1 < |args| then args[i + 1 := value]
                   else args + [flag, value]
    ensures Absent(args, flag) ==> Set(args, flag, value, from) == args + [flag, value]
    decreases |args| - from
  {
    if from < |args| {
      if Occurs(args, from, flag) {
        NotBoth(args[from], flag);
        if from + 1 >= |args| {
          assert Set(args, flag, value, from) == if Joins(args[from], flag) then args[from := flag + "=" + value]
                                                 else Set(args, flag, value, from + 1);
        }
      } else {
        SetMeaning(args, flag, value, from + 1);
      }
    }
  }

  /** `i` is the first argument that is the flag, or starts with it and "=". */
  ghost predicate FirstCarrier(args: seq<string>, i: nat, flag: string)
  {
    && i < |args| && (args[i] == flag || flag + "=" <= args[i])
    && forall k: nat :: k < i ==> args[k] != flag && !(flag + "=" <= args[k])
  }

  lemma CarriersOccur(args: seq<string>, flag: string)
    ensures forall i: nat :: FirstCarrier(args, i, flag) <==> FirstAt(args, i, flag)
    ensures Absent(args, flag) <==> forall i: nat :: !FirstCarrier(args, i, flag)
  {
    forall i: nat ensures FirstCarrier(args, i, flag) <==> FirstAt(args, i, flag) {
      assert forall k: nat :: k < |args| ==> (Occurs(args, k, flag) <==> args[k] == flag || flag + "=" <= args[k]);
    }
    if !Absent(args, flag) {
      var i := First(args, flag, 0);
    }
  }

  /** What is read: the text behind the first "=", or the next argument unless it is missing or starts with "--". */
  lemma ArgumentMeans(args: seq<string>, flag: string)
    ensures Get(args, flag) == None <==> forall i: nat :: !FirstCarrier(args, i, flag)
    ensures forall i: nat :: FirstCarrier(args, i, flag) ==>
              Get(args, flag) == Some(if flag + "=" <= args[i] then args[i][|flag| + 1..]
                                      else if i + 1 < |args| && !("--" <= args[i + 1]) then args[i + 1] else "")
  {
    CarriersOccur(args, flag);
    GetMeaning(args, flag);
  }

  /** What is written: the first "=" form or the argument behind the first flag, and else both at the end. */
  lemma SetMeans(args: seq<string>, flag: string, value: string)
    ensures (forall i: nat :: !FirstCarrier(args, i, flag)) ==> Set(args, flag, value) == args + [flag, value]
    ensures forall i: nat :: FirstCarrier(args, i, flag) ==>
              Set(args, flag, value) == if flag + "=" <= args[i] then args[i := flag + "=" + value]
                                        else if i + 1 < |args| then args[i + 1 := value] else args + [flag, value]
  {
    CarriersOccur(args, flag);
    SetMeaning(args, flag, value, 0);
  }

  /** How the flag first appears. */
  datatype Form = Missing | Joined | Spaced | Dangling

  function FormOf(args: seq<string>, flag: string, from: nat := 0): Form
    decreases |args| - from
  {
    if from >= |args| then Missing
    else if Joins(args[from], flag) then Joined
    else if args[from] == flag then if from + 1 < |args| then Spaced else Dangling
    else FormOf(args, flag, from + 1)
  }

  lemma {:induction false} FormMeaning(args: seq<string>, flag: string, from: nat)
    requires forall k: nat :: k < from ==> !Occurs(args, k, flag)
    ensures Absent(args, flag) <==> FormOf(args, flag, from) == Missing
    ensures forall i: nat :: FirstAt(args, i, flag) ==>
              FormOf(args, flag, from) == if Joins(args[i], flag) then Joined
                                          else if i + 1 < |args| then Spaced else Dangling
    decreases |args| - from
  {
    if from < |args| && !Occurs(args, from, flag) {
      FormMeaning(args, flag, from + 1);
    }
  }

  lemma NoneEarlier(args: seq<string>, after: seq<string>, i: nat, flag: string)
    requires i <= |args| && i <= |after| && args[..i] == after[..i]
    requires forall k: nat :: k < i ==> !Occurs(args, k, flag)
    ensures forall k: nat :: k < i ==> !Occurs(after, k, flag)
  {
    forall k: nat | k < i ensures !Occurs(after, k, flag) {
      assert !Occurs(args, k, flag);
      assert args[..i][k] == args[k] && after[..i][k] == after[k];
    }
  }

  lemma SetWhereAbsent(args: seq<string>, flag: string, value: string)
    requires Absent(args, flag)
    ensures Get(args + [flag, value], flag) == Some(if IsValue(value) then value else "")
  {
    var after := args + [flag, value];
    NotBoth(flag, flag);
    NoneEarlier(args, after, |args|, flag);
    assert after[|args|] == flag && after[|args| + 1] == value;
    assert FirstAt(after, |args|, flag);
    GetMeaning(after, flag);
  }

  lemma SetWhereJoined(args: seq<string>, i: nat, flag: string, value: string)
    requires FirstAt(args, i, flag)
    ensures Get(args[i := flag + "=" + value], flag) == Some(value)
  {
    var after := args[i := flag + "=" + value];
    assert flag + "=" <= after[i] && after[i][|flag| + 1..] == value;
    NoneEarlier(args, after, i, flag);
    assert FirstAt(after, i, flag);
    GetMeaning(after, flag);
  }

  lemma SetWhereSpaced(args: seq<string>, i: nat, flag: string, value: string)
    requires FirstAt(args, i, flag) && args[i] == flag && i + 1 < |args|
    ensures Get(args[i + 1 := value], flag) == Some(if IsValue(value) then value else "")
  {
    var after := args[i + 1 := value];
    NotBoth(flag, flag);
    NoneEarlier(args, after, i, flag);
    assert after[i] == flag;
    assert FirstAt(after, i, flag);
    GetMeaning(after, flag);
  }

  lemma SetWhereDangling(args: seq<string>, i: nat, flag: string, value: string)
    requires IsFlag(flag) && FirstAt(args, i, flag) && args[i] == flag && i + 1 == |args|
    ensures Get(args + [flag, value], flag) == Some("")
  {
    var after := args + [flag, value];
    NotBoth(flag, flag);
    NoneEarlier(args, after, i, flag);
    assert after[i] == flag && after[i + 1] == flag;
    assert FirstAt(after, i, flag);
    GetMeaning(after, flag);
  }

  /** Setting reads back exactly when the first occurrence is joined, or the value is not taken for a flag and
      the flag does not dangle; a dangling flag always reads back as empty. */
  lemma GetAfterSet(args: seq<string>, flag: string, value: string)
    requires IsFlag(flag)
    ensures Get(Set(args, flag, value), flag) == Some(value)
       <==> match FormOf(args, flag)
            case Joined => true
            case Dangling => value == ""
            case _ => IsValue(value)
  {
    SetMeaning(args, flag, value, 0);
    FormMeaning(args, flag, 0);
    if Absent(args, flag) {
      SetWhereAbsent(args, flag, value);
    } else {
      var i := First(args, flag, 0);
      if Joins(args[i], flag) {
        SetWhereJoined(args, i, flag, value);
      } else if i + 1 < |args| {
        SetWhereSpaced(args, i, flag, value);
      } else {
        SetWhereDangling(args, i, flag, value);
      }
    }
  }

  // ---- other flags ----------------------------------------------------------------------------

  /** `g` occurs at the same places with the same values. */
  ghost predicate SameFor(before: seq<string>, after: seq<string>, g: string)
  {
    && (forall k: nat :: Occurs(after, k, g) <==> Occurs(before, k, g))
    && (forall k: nat :: Occurs(before, k, g) && Occurs(after, k, g) ==> ValueAt(after, k, g) == ValueAt(before, k, g))
  }

  lemma SameGet(before: seq<string>, after: seq<string>, g: string)
    requires SameFor(before, after, g)
    ensures Get(after, g) == Get(before, g)
  {
    GetMeaning(before, g);
    GetMeaning(after, g);
    if !Absent(before, g) {
      var i := First(before, g, 0);
      assert FirstAt(after, i, g);
    }
  }

  lemma AppendKeepsOthers(args: seq<string>, f: string, value: string, g: string)
    requires IsFlag(f) && IsFlag(g) && f != g && IsValue(value)
    ensures SameFor(args, args + [f, value], g)
  {
    var after := args + [f, value];
    OneFlag(f, f, g);
    OneFlag(value, f, g);
    assert after[|args|] == f && after[|args| + 1] == value;
    assert forall k: nat :: k < |args| ==> after[k] == args[k];
  }

  lemma ReplaceKeepsOthers(args: seq<string>, n: nat, arg: string, g: string)
    requires IsFlag(g) && n < |args|
    requires args[n] != g && !Joins(args[n], g) && arg != g && !Joins(arg, g)
    requires n > 0 && args[n - 1] == g ==> !IsValue(args[n]) && !IsValue(arg)
    ensures SameFor(args, args[n := arg], g)
  {
    var after := args[n := arg];
    assert forall k: nat :: k < |args| && k != n ==> after[k] == args[k];
  }

  lemma JoinedIsDashed(flag: string, value: string)
    requires IsFlag(flag)
    ensures Joins(flag + "=" + value, flag) && HasPrefix(flag + "=" + value, DASHES)
  {
    assert flag <= flag + "=" + value;
  }

  /** What follows the first `f`, with no value between, is an occurrence of `g`. */
  ghost predicate Swallows(args: seq<string>, f: string, g: string)
  {
    exists i: nat :: FirstAt(args, i, f) && args[i] == f && Occurs(args, i + 1, g)
  }

  lemma SetInPlaceKeepsOthers(args: seq<string>, i: nat, f: string, value: string, g: string)
    requires IsFlag(f) && IsFlag(g) && f != g && IsValue(value)
    requires FirstAt(args, i, f) && args[i] == f && i + 1 < |args|
    ensures SameFor(args, args[i + 1 := value], g) <==> !Occurs(args, i + 1, g)
  {
    OneFlag(value, f, g);
    if !Occurs(args, i + 1, g) {
      ReplaceKeepsOthers(args, i + 1, value, g);
    } else {
      assert !Occurs(args[i + 1 := value], i + 1, g);
    }
  }

  lemma SetJoinedKeepsOthers(args: seq<string>, i: nat, f: string, value: string, g: string)
    requires IsFlag(f) && IsFlag(g) && f != g && FirstAt(args, i, f) && Joins(args[i], f)
    ensures SameFor(args, args[i := f + "=" + value], g)
  {
    JoinedIsDashed(f, value);
    OneFlag(f + "=" + value, f, g);
    OneFlag(args[i], f, g);
    ValueIsNoFlag(args[i], f);
    ReplaceKeepsOthers(args, i, f + "=" + value, g);
  }

  /** A set leaves another flag alone exactly when it does not take that flag for its own value. */
  lemma SetOverwritesExactly(args: seq<string>, f: string, value: string, g: string)
    requires IsFlag(f) && IsFlag(g) && f != g && IsValue(value)
    ensures SameFor(args, Set(args, f, value), g) <==> !Swallows(args, f, g)
  {
    SetMeaning(args, f, value, 0);
    AppendKeepsOthers(args, f, value, g);
    if !Absent(args, f) {
      var i := First(args, f, 0);
      NotBoth(args[i], f);
      assert Swallows(args, f, g) <==> args[i] == f && Occurs(args, i + 1, g);
      if Joins(args[i], f) {
        SetJoinedKeepsOthers(args, i, f, value, g);
      } else if i + 1 < |args| {
        SetInPlaceKeepsOthers(args, i, f, value, g);
      }
    }
  }

  /** So, wherever the flag's first occurrence has a value of its own, every other flag reads as before. */
  lemma SetKeepsOthers(args: seq<string>, f: string, value: string, g: string)
    requires IsFlag(f) && IsFlag(g) && f != g && IsValue(value) && !Swallows(args, f, g)
    ensures Get(Set(args, f, value), g) == Get(args, g)
  {
    SetOverwritesExactly(args, f, value, g);
    SameGet(args, Set(args, f, value), g);
  }

  lemma {:induction false} GetOfSuffix(before: seq<string>, after: seq<string>, g: string, from: nat)
    requires |before| == |after| && from <= |after| && before[from..] == after[from..]
    ensures Get(before, g, from) == Get(after, g, from)
    decreases |after| - from
  {
    if from < |after| {
      assert forall k :: from <= k < |after| ==> before[k] == before[from..][k - from] && after[k] == after[from..][k - from];
      GetOfSuffix(before, after, g, from + 1);
    }
  }

  lemma {:induction false} GetSkips(args: seq<string>, g: string, from: nat, n: nat)
    requires from <= n && forall k: nat :: from <= k < n ==> !Occurs(args, k, g)
    ensures Get(args, g, from) == Get(args, g, n)
    decreases n - from
  {
    if from < n {
      GetSkips(args, g, from + 1, n);
    }
  }

  /** Otherwise the swallowed occurrence is gone: if it was the first, `g` now reads as whatever comes
      behind it, and as missing when nothing does. */
  lemma SetCanDestroyAFlag(args: seq<string>, i: nat, f: string, value: string, g: string)
    requires IsFlag(f) && IsFlag(g) && f != g && IsValue(value)
    requires FirstAt(args, i, f) && args[i] == f && FirstAt(args, i + 1, g)
    ensures Get(args, g) == Some(ValueAt(args, i + 1, g))
    ensures Get(Set(args, f, value), g) == Get(args, g, i + 2)
    ensures (forall k: nat :: Occurs(args, k, g) ==> k == i + 1) ==> Get(Set(args, f, value), g) == None
  {
    var after := args[i + 1 := value];
    NotBoth(f, f);
    SetMeaning(args, f, value, 0);
    GetMeaning(args, g);
    OneFlag(value, f, g);
    NoneEarlier(args, after, i + 1, g);
    GetSkips(after, g, 0, i + 2);
    GetOfSuffix(args, after, g, i + 2);
    if forall k: nat :: Occurs(args, k, g) ==> k == i + 1 {
      GetSkips(args, g, i + 2, |args|);
    }
  }

  // ---- remove -----------------------------------------------------------------------------------

  function Remove(args: seq<string>, flag: string, from: nat := 0): seq<string>
    decreases |args| - from
  {
    if from >= |args| then []
    else if args[from] == flag then Remove(args, flag, from + 2)
    else if Joins(args[from], flag) then Remove(args, flag, from + 1)
    else [args[from]] + Remove(args, flag, from + 1)
  }

  lemma KeepMoves(kept: seq<string>, x: string, rest: seq<string>)
    ensures kept + ([x] + rest) == (kept + [x]) + rest
  {
  }

  lemma RemoveNext(args: seq<string>, flag: string, i: nat)
    requires i < |args|
    ensures Remove(args, flag, i)
         == if args[i] == flag then Remove(args, flag, i + 2)
            else (if HasPrefix(args[i], flag + "=") then [] else [args[i]]) + Remove(args, flag, i + 1)
  {
    NotBoth(args[i], flag);
  }

  method RemoveArgument(args: seq<string>, flag: string) returns (result: seq<string>)
    ensures result == Remove(args, flag)
  {
    result := [];
    var i := 0;
    while i < |args|
      invariant Remove(args, flag) == result + Remove(args, flag, i)
    {
      RemoveNext(args, flag, i);
      if args[i] == flag {
        i := i + 1;
      } else if !HasPrefix(args[i], flag + "=") {
        KeepMoves(result, args[i], Remove(args, flag, i + 1));
        result := result + [args[i]];
      }
      i := i + 1;
    }
  }

  lemma {:induction false} RemovedFrom(args: seq<string>, flag: string, from: nat)
    ensures forall x :: x in Remove(args, flag, from) ==> x != flag && !Joins(x, flag)
    decreases |args| - from
  {
    if from < |args| {
      RemovedFrom(args, flag, from + 1);
      RemovedFrom(args, flag, from + 2);
    }
  }

  /** Whatever the list looks like, a removed flag is gone. */
  lemma RemoveLeavesAbsent(args: seq<string>, flag: string)
    ensures Get(Remove(args, flag), flag) == None
  {
    RemovedFrom(args, flag, 0);
    var after := Remove(args, flag);
    assert forall k: nat :: k < |after| ==> after[k] in after;
    GetMeaning(after, flag);
  }

  /** The values of all occurrences, in order. */
  function Readings(args: seq<string>, flag: string, from: nat := 0): seq<string>
    decreases |args| - from
  {
    if from >= |args| then []
    else if Occurs(args, from, flag) then [ValueAt(args, from, flag)] + Readings(args, flag, from + 1)
    else Readings(args, flag, from + 1)
  }

  lemma {:induction false} GetIsFirstReading(args: seq<string>, flag: string, from: nat)
    ensures Get(args, flag, from)
         == if Readings(args, flag, from) == [] then None else Some(Readings(args, flag, from)[0])
    decreases |args| - from
  {
    if from < |args| {
      GetIsFirstReading(args, flag, from + 1);
    }
  }

  lemma {:induction false} ReadingsShift(x: string, rest: seq<string>, g: string, n: nat)
    ensures Readings([x] + rest, g, n + 1) == Readings(rest, g, n)
    decreases |rest| - n
  {
    var all := [x] + rest;
    if n < |rest| {
      assert all[n + 1] == rest[n] && (n + 1 < |rest| ==> all[n + 2] == rest[n + 1]);
      ReadingsShift(x, rest, g, n + 1);
    }
  }

  /** The removal loop skips this argument as the value of the flag before it. */
  predicate Skipped(args: seq<string>, f: string, i: nat)
    requires i <= |args|
  {
    i > 0 && args[i - 1] == f && !Skipped(args, f, i - 1)
  }

  /** What the removal keeps: neither the flag, with what follows it, nor its "=" forms. */
  predicate Keeps(args: seq<string>, f: string, i: nat)
    requires i < |args|
  {
    !Skipped(args, f, i) && args[i] != f && !(f + "=" <= args[i])
  }

  function KeptBefore(args: seq<string>, f: string, i: nat): nat
    requires i <= |args|
  {
    if i == 0 then 0 else KeptBefore(args, f, i - 1) + if Keeps(args, f, i - 1) then 1 else 0
  }

  /** Where a kept argument ends up. */
  predicate Lands(args: seq<string>, f: string, from: nat, i: nat)
    requires from <= i < |args|
  {
    var n := KeptBefore(args, f, i) - KeptBefore(args, f, from);
    0 <= n < |Remove(args, f, from)| && Remove(args, f, from)[n] == args[i]
  }

  lemma {:induction false} KeptLand(args: seq<string>, f: string, from: nat, i: nat)
    requires from <= |args| && !Skipped(args, f, from)
    ensures KeptBefore(args, f, |args|) == KeptBefore(args, f, from) + |Remove(args, f, from)|
    ensures from <= i < |args| && Keeps(args, f, i) ==> Lands(args, f, from, i)
    decreases |args| - from
  {
    if from < |args| {
      NotBoth(args[from], f);
      if args[from] == f && from + 1 < |args| {
        assert Skipped(args, f, from + 1);
        KeptLand(args, f, from + 2, i);
      } else if args[from] != f {
        KeptLand(args, f, from + 1, i);
      }
    }
  }

  /** Exactly what is left after a removal: the arguments it keeps, each behind those kept before it. */
  lemma RemoveMeans(args: seq<string>, f: string)
    ensures |Remove(args, f)| == KeptBefore(args, f, |args|)
    ensures forall i: nat :: i < |args| && Keeps(args, f, i) ==>
              KeptBefore(args, f, i) < |Remove(args, f)| && Remove(args, f)[KeptBefore(args, f, i)] == args[i]
  {
    KeptLand(args, f, 0, 0);
    forall i: nat | i < |args| && Keeps(args, f, i)
      ensures KeptBefore(args, f, i) < |Remove(args, f)| && Remove(args, f)[KeptBefore(args, f, i)] == args[i]
    {
      KeptLand(args, f, 0, i);
    }
  }

  /** A non-empty value comes to stand behind this spaced occurrence when what `f` is removed from follows it. */
  predicate Gains(args: seq<string>, f: string, g: string, i: nat)
  {
    && i + 1 < |args| && args[i] == g && Occurs(args, i + 1, f)
    && var rest := Remove(args, f, i + 1); rest != [] && rest[0] != "" && IsValue(rest[0])
  }

  /** The removal of `f` takes an occurrence of `g` for its value, or leaves one a value it had not. */
  ghost predicate Disturbs(args: seq<string>, f: string, g: string, from: nat := 0)
  {
    exists i: nat :: from <= i < |args| && Occurs(args, i, g) && (Skipped(args, f, i) || Gains(args, f, g, i))
  }

  lemma DisturbsNext(args: seq<string>, f: string, g: string, from: nat)
    requires from < |args|
    ensures Disturbs(args, f, g, from)
       <==> (Occurs(args, from, g) && (Skipped(args, f, from) || Gains(args, f, g, from))) || Disturbs(args, f, g, from + 1)
  {
  }

  /** One argument the loop keeps. */
  lemma KeptReadings(args: seq<string>, f: string, g: string, from: nat)
    requires IsFlag(f) && IsFlag(g) && f != g && from < |args| && !Occurs(args, from, f)
    ensures Readings(Remove(args, f, from), g)
         == if Occurs(args, from, g)
            then [if Gains(args, f, g, from) then Remove(args, f, from + 1)[0] else ValueAt(args, from, g)]
                 + Readings(Remove(args, f, from + 1), g)
            else Readings(Remove(args, f, from + 1), g)
  {
    var rest := Remove(args, f, from + 1);
    ReadingsShift(args[from], rest, g, 0);
    if args[from] == g {
      NotBoth(g, g);
      KeptValue(args, f, g, from);
    }
  }

  /** What a kept spaced occurrence reads afterwards. */
  lemma KeptValue(args: seq<string>, f: string, g: string, from: nat)
    requires IsFlag(f) && IsFlag(g) && f != g && from < |args| && args[from] == g
    ensures ValueAt([g] + Remove(args, f, from + 1), 0, g)
         == if Gains(args, f, g, from) then Remove(args, f, from + 1)[0] else ValueAt(args, from, g)
  {
    NotBoth(g, g);
    if from + 1 < |args| {
      ValueIsNoFlag(args[from + 1], f);
    }
  }

  lemma GainIsNews(args: seq<string>, f: string, g: string, i: nat)
    requires IsFlag(f) && IsFlag(g)
    ensures Gains(args, f, g, i) ==> Occurs(args, i, g) && ValueAt(args, i, g) == "" != Remove(args, f, i + 1)[0]
  {
    if Gains(args, f, g, i) {
      NotBoth(g, g);
      ValueIsNoFlag(args[i + 1], f);
    }
  }

  lemma SameCons(xs: seq<string>, ys: seq<string>)
    ensures forall x, y :: [x] + xs == [y] + ys <==> x == y && xs == ys
  {
    forall x, y | [x] + xs == [y] + ys ensures x == y && xs == ys {
      assert ([x] + xs)[0] == x && ([x] + xs)[1..] == xs;
      assert ([y] + ys)[0] == y && ([y] + ys)[1..] == ys;
    }
  }

  lemma {:induction false} ReadingsCount(args: seq<string>, f: string, g: string, from: nat)
    requires IsFlag(f) && IsFlag(g) && f != g && from <= |args| && !Skipped(args, f, from)
    ensures |Readings(Remove(args, f, from), g)| <= |Readings(args, g, from)|
    decreases |args| - from
  {
    if from < |args| {
      OneFlag(args[from], f, g);
      if args[from] == f {
        if from + 1 < |args| {
          ReadingsCount(args, f, g, from + 2);
        }
      } else {
        ReadingsCount(args, f, g, from + 1);
        if !Joins(args[from], f) {
          KeptReadings(args, f, g, from);
        }
      }
    }
  }

  lemma {:induction false} RemoveKeepsFrom(args: seq<string>, f: string, g: string, from: nat)
    requires IsFlag(f) && IsFlag(g) && f != g && from <= |args| && !Skipped(args, f, from)
    ensures Readings(Remove(args, f, from), g) == Readings(args, g, from) <==> !Disturbs(args, f, g, from)
    decreases |args| - from
  {
    if from < |args| {
      OneFlag(args[from], f, g);
      DisturbsNext(args, f, g, from);
      if args[from] == f {
        SpacedRemoved(args, f, g, from);
      } else {
        RemoveKeepsFrom(args, f, g, from + 1);
        if !Joins(args[from], f) {
          KeptReadings(args, f, g, from);
          GainIsNews(args, f, g, from);
          SameCons(Readings(Remove(args, f, from + 1), g), Readings(args, g, from + 1));
        }
      }
    }
  }

  lemma {:induction false} SpacedRemoved(args: seq<string>, f: string, g: string, from: nat)
    requires IsFlag(f) && IsFlag(g) && f != g && from < |args| && args[from] == f && !Skipped(args, f, from)
    ensures Readings(Remove(args, f, from), g) == Readings(args, g, from) <==> !Disturbs(args, f, g, from)
    decreases |args| - from, 0
  {
    OneFlag(f, f, g);
    DisturbsNext(args, f, g, from);
    if from + 1 < |args| {
      DisturbsNext(args, f, g, from + 1);
      ReadingsCount(args, f, g, from + 2);
      RemoveKeepsFrom(args, f, g, from + 2);
    }
  }

  /** A removal leaves every occurrence of another flag, and its value, exactly when it disturbs none. */
  lemma RemoveDisturbsExactly(args: seq<string>, f: string, g: string)
    requires IsFlag(f) && IsFlag(g) && f != g
    ensures Readings(Remove(args, f), g) == Readings(args, g) <==> !Disturbs(args, f, g)
  {
    RemoveKeepsFrom(args, f, g, 0);
  }

  /** So a removal that disturbs no occurrence of another flag leaves its value alone. */
  lemma RemoveKeepsOthers(args: seq<string>, f: string, g: string)
    requires IsFlag(f) && IsFlag(g) && f != g && !Disturbs(args, f, g)
    ensures Get(Remove(args, f), g) == Get(args, g)
  {
    RemoveDisturbsExactly(args, f, g);
    GetIsFirstReading(args, g, 0);
    GetIsFirstReading(Remove(args, f), g, 0);
  }
}
