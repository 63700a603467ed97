/**
 ValidateKeyValueList of KeyValueListValidator.go. Every input key crosses the matching keys off a
 clone of the valid list; crossing off shifts the clone's backing array under the range loop that is
 reading it. `fold` stands for the case folding of strings.EqualFold.
 */
module KeyValidator {
  import opened Strings

  /** A slice: its backing array, and how many elements of it are in the slice. */
  datatype Slice = Slice(backing: seq<string>, n: nat) {
    predicate Valid() { n <= |backing| }
    function Keys(): seq<string>
      requires Valid()
    {
      backing[..n]
    }
  }

  function IndexOf(s: seq<string>, v: string): (i: nat)
    ensures i <= |s| && (i < |s| ==> s[i] == v) && forall j | 0 <= j < i :: s[j] != v
  {
    if s == [] || s[0] == v then 0 else 1 + IndexOf(s[1..], v)
  }

  /** removeSlice: the elements after the first exact match move down, the last place keeps its old value. */
  function Remove(s: Slice, v: string): (r: Slice)
    requires s.Valid()
    ensures r.Valid() && |r.backing| == |s.backing| && r.n <= s.n
  {
    var i := IndexOf(s.Keys(), v);
    if i == s.n then s else Slice(s.backing[..i] + s.backing[i + 1..s.n] + s.backing[s.n - 1..], s.n - 1)
  }

  /** One pass of the loop body. */
  function Crossed(fold: char -> char, s: Slice, key: string, i: nat): (r: Slice)
    requires s.Valid() && i < |s.backing|
    ensures r.Valid() && |r.backing| == |s.backing| && r.n <= s.n
  {
    if EqualFold(fold, key, s.backing[i]) then Remove(s, s.backing[i]) else s
  }

  /** The range loop for one input key: `len` is the slice's length when the loop began. */
  function Sweep(fold: char -> char, s: Slice, key: string, i: nat, len: nat): (r: Slice)
    requires s.Valid() && i <= len <= |s.backing|
    ensures r.Valid() && |r.backing| == |s.backing| && r.n <= s.n
    decreases len - i
  {
    if i == len then s
    else Sweep(fold, Crossed(fold, s, key, i), key, i + 1, len)
  }

  function SweepAll(fold: char -> char, s: Slice, inputs: seq<string>): (r: Slice)
    requires s.Valid()
    ensures r.Valid() && |r.backing| == |s.backing| && r.n <= s.n
    decreases |inputs|
  {
    if inputs == [] then s else SweepAll(fold, Sweep(fold, s, inputs[0], 0, s.n), inputs[1..])
  }

  predicate Accepts(fold: char -> char, valid: seq<string>, inputs: seq<string>) {
    SweepAll(fold, Slice(valid, |valid|), inputs).n == 0
  }

  // ------------------------------------------------------------------ the code

  method RemoveSlice(a: array<string>, n: nat, v: string) returns (n': nat)
    requires n <= a.Length
    modifies a
    ensures n' <= a.Length && Slice(a[..], n') == Remove(Slice(old(a[..]), n), v)
  {
    ghost var s := Slice(a[..], n);
    for i := 0 to n
      invariant a[..] == s.backing && forall j | 0 <= j < i :: a[j] != v
    {
      if a[i] == v {
        FirstIs(s.Keys(), v, i);
        ShiftDown(a, i, n);
        return n - 1;
      }
    }
    NoneIs(s.Keys(), v);
    return n;
  }

  /** `append(s[:i], s[i+1:]...)` within the array. */
  method ShiftDown(a: array<string>, i: nat, n: nat)
    requires i < n <= a.Length
    modifies a
    ensures a[..] == old(a[..i] + a[i + 1..n] + a[n - 1..])
  {
    for j := i to n - 1
      invariant forall m | 0 <= m < i :: a[m] == old(a[m])
      invariant forall m | i <= m < j :: a[m] == old(a[m + 1])
      invariant forall m | j <= m < a.Length :: a[m] == old(a[m])
    {
      a[j] := a[j + 1];
    }
  }

  lemma FirstIs(s: seq<string>, v: string, i: nat)
    requires i < |s| && s[i] == v && forall j | 0 <= j < i :: s[j] != v
    ensures IndexOf(s, v) == i
  {}

  lemma NoneIs(s: seq<string>, v: string)
    requires forall j | 0 <= j < |s| :: s[j] != v
    ensures IndexOf(s, v) == |s|
  {}

  method ValidateKeyValueList(fold: char -> char, inputs: seq<string>, valid: array<string>) returns (ok: bool)
    ensures ok <==> Accepts(fold, valid[..], inputs)
  {
    var cloned := new string[valid.Length](i requires 0 <= i < valid.Length reads valid => valid[i]);
    var n: nat := valid.Length;
    assert cloned[..] == valid[..];
    for k := 0 to |inputs|
      invariant n <= cloned.Length
      invariant SweepAll(fold, Slice(valid[..], valid.Length), inputs) == SweepAll(fold, Slice(cloned[..], n), inputs[k..])
    {
      n := SweepKey(fold, inputs[k], cloned, n);
    }
    return n == 0;
  }

  /** The range loop: its bound is fixed at the start, its elements are read as the array stands. */
  method SweepKey(fold: char -> char, key: string, a: array<string>, n: nat) returns (n': nat)
    requires n <= a.Length
    modifies a
    ensures n' <= a.Length && Slice(a[..], n') == Sweep(fold, Slice(old(a[..]), n), key, 0, n)
  {
    n' := n;
    for i := 0 to n
      invariant n' <= a.Length
      invariant Sweep(fold, Slice(a[..], n'), key, i, n) == Sweep(fold, Slice(old(a[..]), n), key, 0, n)
    {
      var v := a[i];
      if EqualFold(fold, key, v) {
        n' := RemoveSlice(a, n', v);
      }
    }
  }

  // ------------------------------------------------------------------ what is kept

  predicate Matched(fold: char -> char, key: string, inputs: seq<string>) {
    exists i | 0 <= i < |inputs| :: EqualFold(fold, inputs[i], key)
  }

  predicate AllMatched(fold: char -> char, valid: seq<string>, inputs: seq<string>) {
    forall i | 0 <= i < |valid| :: Matched(fold, valid[i], inputs)
  }

  /** The keys without the first occurrence of `v`. */
  function Without(keys: seq<string>, v: string): seq<string> {
    var i := IndexOf(keys, v);
    if i == |keys| then keys else keys[..i] + keys[i + 1..]
  }

  /** Removing takes out one occurrence, the first, of exactly that key. */
  lemma RemoveKeys(s: Slice, v: string)
    requires s.Valid()
    ensures Remove(s, v).Keys() == Without(s.Keys(), v)
  {}

  lemma TakeOut(h: seq<string>, p: nat)
    requires p < |h|
    ensures h == h[..p] + [h[p]] + h[p + 1..]
  {}

  lemma CountWithout(a: seq<string>, v: string, b: seq<string>)
    ensures multiset(a + [v] + b) == multiset(a + b) + multiset{v}
  {}

  lemma RemoveTakesOne(s: Slice, v: string)
    requires s.Valid()
    ensures multiset(Remove(s, v).Keys()) == multiset(s.Keys()) - multiset{v}
  {
    RemoveKeys(s, v);
    WithoutFirst(s.Keys(), v);
  }

  lemma WithoutFirst(keys: seq<string>, v: string)
    ensures multiset(Without(keys, v)) == multiset(keys) - multiset{v}
  {
    var i := IndexOf(keys, v);
    if i < |keys| {
      TakeOut(keys, i);
      CountWithout(keys[..i], v, keys[i + 1..]);
    } else {
      assert v !in keys;
    }
  }

  /** A sweep takes out only keys that match. */
  lemma {:induction false} SweepKeeps(fold: char -> char, s: Slice, key: string, i: nat, len: nat, w: string)
    requires s.Valid() && i <= len <= |s.backing|
    ensures multiset(Sweep(fold, s, key, i, len).Keys())[w] <= multiset(s.Keys())[w]
    ensures !EqualFold(fold, key, w) ==> multiset(Sweep(fold, s, key, i, len).Keys())[w] == multiset(s.Keys())[w]
    decreases len - i
  {
    if i < len {
      CrossedKeeps(fold, s, key, i, w);
      SweepKeeps(fold, Crossed(fold, s, key, i), key, i + 1, len, w);
    }
  }

  lemma CrossedKeeps(fold: char -> char, s: Slice, key: string, i: nat, w: string)
    requires s.Valid() && i < |s.backing|
    ensures multiset(Crossed(fold, s, key, i).Keys())[w] <= multiset(s.Keys())[w]
    ensures !EqualFold(fold, key, w) ==> multiset(Crossed(fold, s, key, i).Keys())[w] == multiset(s.Keys())[w]
  {
    if EqualFold(fold, key, s.backing[i]) { RemoveTakesOne(s, s.backing[i]); }
  }

  lemma {:induction false} SweepAllKeeps(fold: char -> char, s: Slice, inputs: seq<string>, w: string)
    requires s.Valid()
    ensures multiset(SweepAll(fold, s, inputs).Keys())[w] <= multiset(s.Keys())[w]
    ensures !Matched(fold, w, inputs) ==> multiset(SweepAll(fold, s, inputs).Keys())[w] == multiset(s.Keys())[w]
    decreases |inputs|
  {
    if inputs != [] {
      SweepKeeps(fold, s, inputs[0], 0, s.n, w);
      SweepAllKeeps(fold, Sweep(fold, s, inputs[0], 0, s.n), inputs[1..], w);
      if !Matched(fold, w, inputs) {
        assert forall i | 0 <= i < |inputs[1..]| :: inputs[1..][i] == inputs[i + 1];
      }
    }
  }

  /** Whatever the lists: an accepted input matches every valid key. */
  lemma AcceptedIsMatched(fold: char -> char, valid: seq<string>, inputs: seq<string>)
    requires Accepts(fold, valid, inputs)
    ensures AllMatched(fold, valid, inputs)
  {
    var s := Slice(valid, |valid|);
    assert s.Keys() == valid;
    forall i | 0 <= i < |valid| ensures Matched(fold, valid[i], inputs) {
      SweepAllKeeps(fold, s, inputs, valid[i]);
      assert SweepAll(fold, s, inputs).Keys() == [];
      assert multiset(valid)[valid[i]] > 0;
    }
  }

  // ------------------------------------------------------------------ what a sweep jumps over

  /** The keys that the reader jumps over: each match moves the next key into the place just read. */
  function Jumped(fold: char -> char, key: string, q: seq<string>): seq<string> {
    if q == [] then []
    else if !EqualFold(fold, key, q[0]) then Jumped(fold, key, q[1..])
    else if |q| == 1 then []
    else [q[1]] + Jumped(fold, key, q[2..])
  }

  /** A sweep jumps over a key that it should cross off, and that is spelled otherwise than the list's last. */
  predicate Stumbles(fold: char -> char, key: string, keys: seq<string>) {
    exists w | w in Jumped(fold, key, keys) :: EqualFold(fold, key, w) && w != keys[|keys| - 1]
  }

  /** The keys that the reader at `i` has passed, and those before it. */
  function Passed(keys: seq<string>, i: nat): seq<string> { if i < |keys| then keys[..i] else keys }

  function Ahead(keys: seq<string>, i: nat): seq<string> { if i < |keys| then keys[i..] else [] }

  /** From the slice's last place, or from the reader if it is past it, the reader will find only `z`. */
  predicate Tail(s: Slice, i: nat, len: nat, z: string) {
    s.Valid() && i <= len && s.n <= len <= |s.backing| && forall j | i <= j < len && s.n <= j + 1 :: s.backing[j] == z
  }

  /** What has been read before `i`, when the key at `i` is removed from its first place. */
  function ReadLess(keys: seq<string>, i: nat): (m: seq<string>)
    requires i < |keys|
    ensures |m| == i
  {
    var p := IndexOf(keys, keys[i]);
    keys[..p] + keys[p + 1..i + 1]
  }

  lemma SameRead(keys: seq<string>, i: nat)
    requires i < |keys|
    ensures multiset(ReadLess(keys, i)) == multiset(keys[..i])
  {
    var p := IndexOf(keys, keys[i]);
    TakeOut(keys[..i + 1], p);
    assert keys[..i + 1][..p] == keys[..p] && keys[..i + 1][p + 1..] == keys[p + 1..i + 1];
    assert keys[..i + 1] == keys[..i] + [keys[i]];
    DropEither(keys[..p], keys[i], keys[p + 1..i + 1], keys[..i]);
  }

  lemma DropEither(a: seq<string>, v: string, b: seq<string>, c: seq<string>)
    requires a + [v] + b == c + [v]
    ensures multiset(a + b) == multiset(c)
  {
    assert multiset(a + b) == multiset(a + [v] + b) - multiset{v};
    assert multiset(c) == multiset(c + [v]) - multiset{v};
  }

  lemma RemovedKeys(s: Slice, i: nat)
    requires s.Valid() && i < s.n
    ensures var r := Remove(s, s.backing[i]);
            r.n == s.n - 1 && r.Keys() == ReadLess(s.Keys(), i) + s.Keys()[i + 1..]
  {
    RemoveKeys(s, s.backing[i]);
    Regroup(s.Keys(), IndexOf(s.Keys(), s.Keys()[i]), i);
  }

  lemma Regroup(keys: seq<string>, p: nat, i: nat)
    requires p <= i < |keys|
    ensures keys[..p] + keys[p + 1..] == keys[..p] + keys[p + 1..i + 1] + keys[i + 1..]
  {}

  lemma RemoveKeepsTail(s: Slice, i: nat, len: nat, z: string)
    requires Tail(s, i, len, z) && i < len
    ensures Tail(Remove(s, s.backing[i]), i + 1, len, z)
  {}

  /** The next key moves to the place just read, and the reader goes past it. */
  lemma ReadAndRemove(s: Slice, i: nat)
    requires s.Valid() && i < s.n
    ensures var keys, q := Remove(s, s.backing[i]).Keys(), Ahead(s.Keys(), i);
            multiset(Passed(keys, i + 1)) == multiset(Passed(s.Keys(), i)) + multiset(if |q| > 1 then [q[1]] else []) &&
            Ahead(keys, i + 1) == if |q| > 1 then q[2..] else []
  {
    RemovedKeys(s, i);
    LessAndNext(s.Keys(), i);
  }

  lemma LessAndNext(keys: seq<string>, i: nat)
    requires i < |keys|
    ensures var left, q := ReadLess(keys, i) + keys[i + 1..], Ahead(keys, i);
            multiset(Passed(left, i + 1)) == multiset(Passed(keys, i)) + multiset(if |q| > 1 then [q[1]] else []) &&
            Ahead(left, i + 1) == if |q| > 1 then q[2..] else []
  {
    SameRead(keys, i);
    NextIsPassed(ReadLess(keys, i), keys[i + 1..]);
    assert keys[i..][1..] == keys[i + 1..];
    if i + 1 < |keys| {
      assert keys[i..][1] == keys[i + 1] && keys[i..][2..] == keys[i + 1..][1..];
    }
  }

  lemma NextIsPassed(m: seq<string>, q: seq<string>)
    ensures Passed(m + q, |m| + 1) == m + if q == [] then [] else [q[0]]
    ensures Ahead(m + q, |m| + 1) == if q == [] then [] else q[1..]
  {}

  lemma ReadAndKeep(s: Slice, i: nat)
    requires s.Valid() && i < s.n
    ensures multiset(Passed(s.Keys(), i + 1)) == multiset(Passed(s.Keys(), i)) + multiset{s.backing[i]}
    ensures Ahead(s.Keys(), i + 1) == Ahead(s.Keys(), i)[1..] && Ahead(s.Keys(), i)[0] == s.backing[i]
  {
    assert Passed(s.Keys(), i + 1) == Passed(s.Keys(), i) + [s.backing[i]];
  }

  /** How often `w` will be left. */
  function Left(fold: char -> char, key: string, keys: seq<string>, i: nat, w: string): nat {
    multiset(Passed(keys, i))[w] + multiset(Jumped(fold, key, Ahead(keys, i)))[w]
  }

  lemma KeepLeaves(fold: char -> char, s: Slice, key: string, i: nat, w: string)
    requires s.Valid() && i < |s.backing| && !EqualFold(fold, key, s.backing[i]) && EqualFold(fold, key, w)
    ensures Left(fold, key, s.Keys(), i + 1, w) == Left(fold, key, s.Keys(), i, w)
  {
    if i < s.n { ReadAndKeep(s, i); }
  }

  lemma RemoveLeaves(fold: char -> char, s: Slice, key: string, i: nat, z: string, w: string)
    requires s.Valid() && i < |s.backing| && EqualFold(fold, key, s.backing[i]) && w != z
    requires s.n <= i + 1 ==> s.backing[i] == z
    ensures Left(fold, key, Remove(s, s.backing[i]).Keys(), i + 1, w) == Left(fold, key, s.Keys(), i, w)
  {
    if i < s.n {
      RemovedKeys(s, i);
      ReadLeaves(fold, key, s.Keys(), i, w);
    } else {
      RemoveTakesOne(s, z);
      LeftAtEnd(fold, s, key, i, w);
      LeftAtEnd(fold, Remove(s, z), key, i + 1, w);
    }
  }

  lemma ReadLeaves(fold: char -> char, key: string, keys: seq<string>, i: nat, w: string)
    requires i < |keys| && EqualFold(fold, key, keys[i])
    ensures Left(fold, key, ReadLess(keys, i) + keys[i + 1..], i + 1, w) == Left(fold, key, keys, i, w)
  {
    LessAndNext(keys, i);
    JumpsNext(fold, key, Ahead(keys, i));
  }

  lemma JumpsNext(fold: char -> char, key: string, q: seq<string>)
    requires q != [] && EqualFold(fold, key, q[0])
    ensures multiset(Jumped(fold, key, q)) ==
            multiset(if |q| > 1 then [q[1]] else []) + multiset(Jumped(fold, key, if |q| > 1 then q[2..] else []))
  {}

  lemma LeftAtEnd(fold: char -> char, s: Slice, key: string, i: nat, w: string)
    requires s.Valid() && s.n <= i
    ensures Left(fold, key, s.Keys(), i, w) == multiset(s.Keys())[w]
  {}

  /** `w`, spelled otherwise than the last key, will be left `n` times. */
  predicate WillLeave(fold: char -> char, key: string, s: Slice, i: nat, len: nat, z: string, w: string, n: nat) {
    Tail(s, i, len, z) && Left(fold, key, s.Keys(), i, w) == n
  }

  lemma CrossedLeaves(fold: char -> char, s: Slice, key: string, i: nat, len: nat, z: string, w: string, n: nat)
    requires WillLeave(fold, key, s, i, len, z, w, n) && i < len && EqualFold(fold, key, w) && w != z
    ensures WillLeave(fold, key, Crossed(fold, s, key, i), i + 1, len, z, w, n)
  {
    if EqualFold(fold, key, s.backing[i]) {
      RemoveKeepsTail(s, i, len, z);
      RemoveLeaves(fold, s, key, i, z, w);
    } else {
      KeepLeaves(fold, s, key, i, w);
    }
  }

  lemma LeavesAtEnd(fold: char -> char, key: string, s: Slice, len: nat, z: string, w: string, n: nat)
    requires WillLeave(fold, key, s, len, len, z, w, n)
    ensures multiset(s.Keys())[w] == n
  {
    LeftAtEnd(fold, s, key, len, w);
  }

  /** What every pass of the loop keeps holds at its end. */
  lemma {:induction false} SweepInduction(fold: char -> char, s: Slice, key: string, i: nat, len: nat, inv: (Slice, nat) -> bool)
    requires s.Valid() && i <= len <= |s.backing| && inv(s, i)
    requires forall t: Slice, j: nat | t.Valid() && j < len <= |t.backing| && inv(t, j) :: inv(Crossed(fold, t, key, j), j + 1)
    ensures inv(Sweep(fold, s, key, i, len), len)
    decreases len - i
  {
    if i < len { SweepInduction(fold, Crossed(fold, s, key, i), key, i + 1, len, inv); }
  }

  /** Of the matching keys not spelled as the last one, a sweep leaves those it jumps over. */
  lemma SweepLeaves(fold: char -> char, s: Slice, key: string, i: nat, len: nat, z: string, w: string)
    requires Tail(s, i, len, z) && EqualFold(fold, key, w) && w != z
    ensures multiset(Sweep(fold, s, key, i, len).Keys())[w] == Left(fold, key, s.Keys(), i, w)
  {
    var n := Left(fold, key, s.Keys(), i, w);
    var inv := (t: Slice, j: nat) => WillLeave(fold, key, t, j, len, z, w, n);
    forall t: Slice, j: nat | t.Valid() && j < len <= |t.backing| && inv(t, j) ensures inv(Crossed(fold, t, key, j), j + 1) {
      CrossedLeaves(fold, t, key, j, len, z, w, n);
    }
    SweepInduction(fold, s, key, i, len, inv);
    LeavesAtEnd(fold, key, Sweep(fold, s, key, i, len), len, z, w, n);
  }

  /** The copies of `z` that the reader has passed are no more than the reads of stale places to come. */
  predicate MadeUpFor(s: Slice, i: nat, len: nat, z: string) {
    s.Valid() && multiset(Passed(s.Keys(), i))[z] <= len - if i < s.n then s.n else i
  }

  lemma CrossedIsMadeUpFor(fold: char -> char, s: Slice, key: string, i: nat, len: nat, z: string)
    requires Tail(s, i, len, z) && i < len && EqualFold(fold, key, z) && MadeUpFor(s, i, len, z)
    ensures Tail(Crossed(fold, s, key, i), i + 1, len, z) && MadeUpFor(Crossed(fold, s, key, i), i + 1, len, z)
  {
    if !EqualFold(fold, key, s.backing[i]) {
      ReadAndKeep(s, i);
    } else {
      RemoveKeepsTail(s, i, len, z);
      if i < s.n {
        RemovedKeys(s, i);
        ReadAndRemove(s, i);
      } else {
        RemoveTakesOne(s, z);
      }
    }
  }

  /** If the last key matches, all its copies are crossed off: each one jumped over is made up for at the end. */
  lemma SweepClearsLast(fold: char -> char, s: Slice, key: string, i: nat, len: nat, z: string)
    requires Tail(s, i, len, z) && EqualFold(fold, key, z) && MadeUpFor(s, i, len, z)
    ensures multiset(Sweep(fold, s, key, i, len).Keys())[z] == 0
  {
    var inv := (t: Slice, j: nat) => Tail(t, j, len, z) && MadeUpFor(t, j, len, z);
    forall t: Slice, j: nat | t.Valid() && j < len <= |t.backing| && inv(t, j) ensures inv(Crossed(fold, t, key, j), j + 1) {
      CrossedIsMadeUpFor(fold, t, key, j, len, z);
    }
    SweepInduction(fold, s, key, i, len, inv);
  }

  // ------------------------------------------------------------------ the keys of some sort, in order

  function Select(p: string -> bool, keys: seq<string>): seq<string> {
    if keys == [] then []
    else if p(keys[0]) then [keys[0]] + Select(p, keys[1..])
    else Select(p, keys[1..])
  }

  lemma {:induction false} SelectMembers(p: string -> bool, keys: seq<string>)
    ensures forall w :: w in Select(p, keys) <==> w in keys && p(w)
  {
    if keys != [] {
      SelectMembers(p, keys[1..]);
      assert keys == [keys[0]] + keys[1..];
    }
  }

  lemma {:induction false} SelectConcat(p: string -> bool, a: seq<string>, b: seq<string>)
    ensures Select(p, a + b) == Select(p, a) + Select(p, b)
  {
    if a == [] {
      assert a + b == b;
    } else {
      assert (a + b)[1..] == a[1..] + b;
      SelectConcat(p, a[1..], b);
      if p(a[0]) { assert [a[0]] + (Select(p, a[1..]) + Select(p, b)) == ([a[0]] + Select(p, a[1..])) + Select(p, b); }
    }
  }

  lemma {:induction false} SelectAll(p: string -> bool, keys: seq<string>)
    requires forall w | w in keys :: p(w)
    ensures Select(p, keys) == keys
  {
    if keys != [] { SelectAll(p, keys[1..]); }
  }

  lemma {:induction false} SelectTwice(p: string -> bool, q: string -> bool, r: string -> bool, keys: seq<string>)
    requires forall w | w in keys :: r(w) <==> p(w) && q(w)
    ensures Select(p, Select(q, keys)) == Select(r, keys)
  {
    if keys != [] {
      SelectTwice(p, q, r, keys[1..]);
      SelectConcat(p, if q(keys[0]) then [keys[0]] else [], Select(q, keys[1..]));
    }
  }

  /** The keys that none of the inputs matches, and those that `c` or `e` matches. */
  function Unmatched(fold: char -> char, keys: seq<string>, inputs: seq<string>): seq<string> {
    Select(UnmatchedBy(fold, inputs), keys)
  }

  function Only(fold: char -> char, keys: seq<string>, c: string, e: string): seq<string> {
    Select(Either(fold, c, e), keys)
  }

  function UnmatchedBy(fold: char -> char, inputs: seq<string>): string -> bool { w => !Matched(fold, w, inputs) }

  function Either(fold: char -> char, c: string, e: string): string -> bool {
    w => EqualFold(fold, c, w) || EqualFold(fold, e, w)
  }

  function Unlike(fold: char -> char, key: string): string -> bool { w => !EqualFold(fold, key, w) }

  function Neither(fold: char -> char, c: string, e: string): string -> bool {
    w => !EqualFold(fold, c, w) && !EqualFold(fold, e, w)
  }

  lemma RemoveSelects(s: Slice, v: string, p: string -> bool)
    requires s.Valid() && !p(v)
    ensures Select(p, Remove(s, v).Keys()) == Select(p, s.Keys())
  {
    RemoveKeys(s, v);
    var i := IndexOf(s.Keys(), v);
    if i < s.n {
      TakeOut(s.Keys(), i);
      SelectWithout(p, s.Keys()[..i], v, s.Keys()[i + 1..]);
    }
  }

  lemma SelectWithout(p: string -> bool, a: seq<string>, v: string, b: seq<string>)
    requires !p(v)
    ensures Select(p, a + b) == Select(p, a + [v] + b)
  {
    SelectConcat(p, a + [v], b);
    SelectConcat(p, a, [v]);
    SelectConcat(p, a, b);
  }

  /** A sweep keeps the keys that do not match, in their order. */
  lemma {:induction false} SweepSelects(fold: char -> char, s: Slice, key: string, i: nat, len: nat, p: string -> bool)
    requires s.Valid() && i <= len <= |s.backing| && forall w | EqualFold(fold, key, w) :: !p(w)
    ensures Select(p, Sweep(fold, s, key, i, len).Keys()) == Select(p, s.Keys())
    decreases len - i
  {
    if i < len {
      if EqualFold(fold, key, s.backing[i]) { RemoveSelects(s, s.backing[i], p); }
      SweepSelects(fold, Crossed(fold, s, key, i), key, i + 1, len, p);
    }
  }

  lemma WholeSweep(fold: char -> char, s: Slice, key: string, w: string)
    requires s.Valid() && s.n > 0 && EqualFold(fold, key, w)
    ensures var z := s.Keys()[s.n - 1];
            multiset(Sweep(fold, s, key, 0, s.n).Keys())[w] == if w == z then 0 else multiset(Jumped(fold, key, s.Keys()))[w]
  {
    var z := s.Keys()[s.n - 1];
    assert Tail(s, 0, s.n, z) && Passed(s.Keys(), 0) == [] && Ahead(s.Keys(), 0) == s.Keys();
    if w == z {
      SweepClearsLast(fold, s, key, 0, s.n, z);
    } else {
      SweepLeaves(fold, s, key, 0, s.n, z, w);
    }
  }

  lemma NoneLeft(fold: char -> char, s: Slice, key: string, w: string)
    requires s.Valid() && !Stumbles(fold, key, s.Keys()) && EqualFold(fold, key, w)
    ensures w !in Sweep(fold, s, key, 0, s.n).Keys()
  {
    if s.n > 0 {
      WholeSweep(fold, s, key, w);
      var left := Sweep(fold, s, key, 0, s.n).Keys();
      assert w == s.Keys()[s.n - 1] || w !in multiset(Jumped(fold, key, s.Keys()));
      assert multiset(left)[w] == 0;
    }
  }

  /** A sweep that does not stumble crosses off all that match and nothing else. */
  lemma SweepClean(fold: char -> char, s: Slice, key: string)
    requires s.Valid() && !Stumbles(fold, key, s.Keys())
    ensures Sweep(fold, s, key, 0, s.n).Keys() == Select(Unlike(fold, key), s.Keys())
  {
    var left, p := Sweep(fold, s, key, 0, s.n).Keys(), Unlike(fold, key);
    SweepSelects(fold, s, key, 0, s.n, p);
    forall w | w in left ensures p(w) {
      if EqualFold(fold, key, w) { NoneLeft(fold, s, key, w); }
    }
    SelectAll(p, left);
  }

  // ------------------------------------------------------------------ where a sweep stumbles

  /** A matching key that is jumped over stands behind an odd number of matching ones, with none before these. */
  predicate Behind(fold: char -> char, key: string, a: seq<string>, b: seq<string>) {
    (a == [] || !EqualFold(fold, key, a[|a| - 1])) && |b| % 2 == 1 && forall i | 0 <= i < |b| :: EqualFold(fold, key, b[i])
  }

  lemma {:induction false} JumpedStands(fold: char -> char, key: string, q: seq<string>, w: string)
      returns (a: seq<string>, b: seq<string>, c: seq<string>)
    requires w in Jumped(fold, key, q)
    ensures q == a + b + [w] + c && Behind(fold, key, a, b)
    decreases |q|
  {
    if !EqualFold(fold, key, q[0]) {
      a, b, c := JumpedStands(fold, key, q[1..], w);
      a := [q[0]] + a;
    } else if w == q[1] {
      a, b, c := [], q[..1], q[2..];
    } else {
      a, b, c := JumpedStands(fold, key, q[2..], w);
      if a == [] && EqualFold(fold, key, q[1]) {
        b := q[..2] + b;
      } else {
        a := q[..2] + a;
      }
    }
  }

  lemma {:induction false} StandsJumped(fold: char -> char, key: string, a: seq<string>, b: seq<string>, w: string, c: seq<string>)
    requires Behind(fold, key, a, b)
    ensures w in Jumped(fold, key, a + b + [w] + c)
    decreases |a| + |b|
  {
    var q := a + b + [w] + c;
    if a != [] && !EqualFold(fold, key, a[0]) {
      assert q[1..] == a[1..] + b + [w] + c;
      StandsJumped(fold, key, a[1..], b, w, c);
    } else if a != [] {
      assert q[2..] == a[2..] + b + [w] + c;
      StandsJumped(fold, key, a[2..], b, w, c);
    } else if |b| > 1 {
      assert q[2..] == b[2..] + [w] + c;
      assert q[2..] == [] + b[2..] + [w] + c;
      StandsJumped(fold, key, [], b[2..], w, c);
    } else {
      assert q[1] == w;
    }
  }

  /** Of two matching neighbours one is jumped over. */
  lemma {:induction false} NeighbourJumped(fold: char -> char, key: string, a: seq<string>, x: string, y: string, c: seq<string>)
    requires EqualFold(fold, key, x) && EqualFold(fold, key, y)
    ensures x in Jumped(fold, key, a + [x, y] + c) || y in Jumped(fold, key, a + [x, y] + c)
    decreases |a|
  {
    var q := a + [x, y] + c;
    if a == [] {
      assert q[1] == y;
    } else if !EqualFold(fold, key, a[0]) {
      assert q[1..] == a[1..] + [x, y] + c;
      NeighbourJumped(fold, key, a[1..], x, y, c);
    } else if |a| == 1 {
      assert q[1] == x;
    } else {
      assert q[2..] == a[2..] + [x, y] + c;
      NeighbourJumped(fold, key, a[2..], x, y, c);
    }
  }

  lemma {:induction false} AlikeJumped(fold: char -> char, c: string, d: string, q: seq<string>)
    requires EqualFold(fold, c, d)
    ensures Jumped(fold, c, q) == Jumped(fold, d, q)
    decreases |q|
  {
    if |q| > 1 {
      AlikeJumped(fold, c, d, if EqualFold(fold, c, q[0]) then q[2..] else q[1..]);
    }
  }

  lemma SelectLast(p: string -> bool, q: seq<string>)
    requires q != [] && p(q[|q| - 1])
    ensures Select(p, q) == Select(p, q[..|q| - 1]) + [q[|q| - 1]]
  {
    assert q == q[..|q| - 1] + [q[|q| - 1]];
    SelectConcat(p, q[..|q| - 1], [q[|q| - 1]]);
    SelectAll(p, [q[|q| - 1]]);
  }

  /** Where a sweep stumbles, it stumbles over the same keys among those of two sorts. */
  lemma StumblesAmongTwo(fold: char -> char, c: string, r: seq<string>) returns (w: string, e: string)
    requires Stumbles(fold, c, r)
    ensures w in r && e in r && Stumbles(fold, w, Only(fold, r, w, e))
  {
    w :| w in Jumped(fold, c, r) && EqualFold(fold, c, w) && w != r[|r| - 1];
    AlikeJumped(fold, c, w, r);
    var a, b, x := JumpedStands(fold, w, r, w);
    assert w == (a + b + [w] + x)[|a| + |b|];
    var z := r[|r| - 1];
    if EqualFold(fold, w, z) {
      e := if a == [] then w else a[|a| - 1];
      assert e == r[if a == [] then |b| else |a| - 1];
      SameRun(fold, w, e, a, b, x);
    } else {
      e := z;
      assert r == a + b[..|b| - 1] + [b[|b| - 1], w] + x;
      SameNeighbours(fold, w, z, a + b[..|b| - 1], b[|b| - 1], x);
    }
  }

  lemma SameRun(fold: char -> char, w: string, e: string, a: seq<string>, b: seq<string>, x: seq<string>)
    requires Behind(fold, w, a, b) && e == if a == [] then w else a[|a| - 1]
    requires var r := a + b + [w] + x; EqualFold(fold, w, r[|r| - 1]) && w != r[|r| - 1]
    ensures Stumbles(fold, w, Only(fold, a + b + [w] + x, w, e))
  {
    var p, r := Either(fold, w, e), a + b + [w] + x;
    SelectConcat(p, a + b + [w], x);
    SelectConcat(p, a + b, [w]);
    SelectConcat(p, a, b);
    SelectAll(p, b);
    SelectAll(p, [w]);
    if a != [] { SelectLast(p, a); }
    SelectLast(p, r);
    StandsJumped(fold, w, Select(p, a), b, w, Select(p, x));
  }

  lemma SameNeighbours(fold: char -> char, w: string, z: string, a: seq<string>, y: string, x: seq<string>)
    requires EqualFold(fold, w, y) && !EqualFold(fold, w, z)
    requires var r := a + [y, w] + x; z == r[|r| - 1]
    ensures Stumbles(fold, w, Only(fold, a + [y, w] + x, w, z))
  {
    var p, r := Either(fold, w, z), a + [y, w] + x;
    SelectConcat(p, a + [y, w], x);
    SelectConcat(p, a, [y, w]);
    SelectAll(p, [y, w]);
    SelectLast(p, r);
    NeighbourJumped(fold, w, Select(p, a), y, w, Select(p, x));
  }

  // ------------------------------------------------------------------ which lists are decided rightly

  /** Among the keys of any two sorts no sweep stumbles. */
  predicate SoundInPairs(fold: char -> char, keys: seq<string>) {
    forall c, e | c in keys && e in keys :: !Stumbles(fold, c, Only(fold, keys, c, e))
  }

  lemma MatchedAlike(fold: char -> char, w: string, k: string, inputs: seq<string>)
    requires EqualFold(fold, w, k) && Matched(fold, k, inputs)
    ensures Matched(fold, w, inputs)
  {
    var i :| 0 <= i < |inputs| && EqualFold(fold, inputs[i], k);
    assert EqualFold(fold, inputs[i], w);
  }

  /** In a list that is sound in pairs no sweep stumbles, whatever has been crossed off before. */
  lemma NeverStumbles(fold: char -> char, keys: seq<string>, inputs: seq<string>, key: string)
    requires SoundInPairs(fold, keys)
    ensures !Stumbles(fold, key, Unmatched(fold, keys, inputs))
  {
    var r := Unmatched(fold, keys, inputs);
    if Stumbles(fold, key, r) {
      var w, e := StumblesAmongTwo(fold, key, r);
      var p := Either(fold, w, e);
      SelectMembers(UnmatchedBy(fold, inputs), keys);
      forall k | k in keys && p(k) ensures !Matched(fold, k, inputs) {
        if Matched(fold, k, inputs) { MatchedAlike(fold, if EqualFold(fold, w, k) then w else e, k, inputs); }
      }
      SelectTwice(p, UnmatchedBy(fold, inputs), p, keys);
      assert false;
    }
  }

  lemma {:induction false} SweepAllSound(fold: char -> char, keys: seq<string>, before: seq<string>, s: Slice, inputs: seq<string>)
    requires SoundInPairs(fold, keys) && s.Valid() && s.Keys() == Unmatched(fold, keys, before)
    ensures SweepAll(fold, s, inputs).Keys() == Unmatched(fold, keys, before + inputs)
    decreases |inputs|
  {
    if inputs == [] {
      assert before + inputs == before;
    } else {
      var key, so := inputs[0], before + [inputs[0]];
      NeverStumbles(fold, keys, before, key);
      SweepClean(fold, s, key);
      forall w ensures Matched(fold, w, so) <==> Matched(fold, w, before) || EqualFold(fold, key, w) {
        MatchedMore(fold, w, before, key);
      }
      SelectTwice(Unlike(fold, key), UnmatchedBy(fold, before), UnmatchedBy(fold, so), keys);
      SweepAllSound(fold, keys, so, Sweep(fold, s, key, 0, s.n), inputs[1..]);
      assert so + inputs[1..] == before + inputs;
    }
  }

  lemma MatchedMore(fold: char -> char, w: string, inputs: seq<string>, key: string)
    ensures Matched(fold, w, inputs + [key]) <==> Matched(fold, w, inputs) || EqualFold(fold, key, w)
  {
    var more := inputs + [key];
    if Matched(fold, w, inputs) {
      var i :| 0 <= i < |inputs| && EqualFold(fold, inputs[i], w);
      assert EqualFold(fold, more[i], w);
    } else if EqualFold(fold, key, w) {
      assert EqualFold(fold, more[|inputs|], w);
    }
  }

  /** A list that is sound in pairs is decided rightly. */
  lemma SoundDecides(fold: char -> char, keys: seq<string>, inputs: seq<string>)
    requires SoundInPairs(fold, keys)
    ensures Accepts(fold, keys, inputs) <==> AllMatched(fold, keys, inputs)
  {
    var s := Slice(keys, |keys|);
    SelectAll(UnmatchedBy(fold, []), keys);
    assert s.Keys() == keys == Unmatched(fold, keys, []);
    SweepAllSound(fold, keys, [], s, inputs);
    assert [] + inputs == inputs;
    var left := SweepAll(fold, s, inputs).Keys();
    SelectMembers(UnmatchedBy(fold, inputs), keys);
    if left != [] {
      assert left[0] in left && left[0] in keys && !Matched(fold, left[0], inputs);
    } else {
      forall i | 0 <= i < |keys| ensures Matched(fold, keys[i], inputs) {
        assert keys[i] in keys && keys[i] !in left;
      }
    }
  }

  /** All keys of other sorts first, then one of each of the two. */
  function Stumbling(fold: char -> char, keys: seq<string>, c: string, e: string): seq<string> {
    Select(Neither(fold, c, e), keys) + ([c] + LastInput(fold, c, e))
  }

  function LastInput(fold: char -> char, c: string, e: string): seq<string> {
    if EqualFold(fold, c, e) then [] else [e]
  }

  lemma {:induction false} SweepAllConcat(fold: char -> char, s: Slice, a: seq<string>, b: seq<string>)
    requires s.Valid()
    ensures SweepAll(fold, s, a + b) == SweepAll(fold, SweepAll(fold, s, a), b)
    decreases |a|
  {
    if a == [] {
      assert a + b == b;
    } else {
      assert (a + b)[1..] == a[1..] + b;
      SweepAllConcat(fold, Sweep(fold, s, a[0], 0, s.n), a[1..], b);
    }
  }

  lemma {:induction false} SweepAllSelects(fold: char -> char, s: Slice, inputs: seq<string>, p: string -> bool)
    requires s.Valid() && forall k, w | k in inputs && EqualFold(fold, k, w) :: !p(w)
    ensures Select(p, SweepAll(fold, s, inputs).Keys()) == Select(p, s.Keys())
    decreases |inputs|
  {
    if inputs != [] {
      SweepSelects(fold, s, inputs[0], 0, s.n, p);
      SweepAllSelects(fold, Sweep(fold, s, inputs[0], 0, s.n), inputs[1..], p);
    }
  }

  /** A key that no more input matches is there at the end. */
  lemma Survives(fold: char -> char, s: Slice, inputs: seq<string>, w: string)
    requires s.Valid() && w in s.Keys() && !Matched(fold, w, inputs)
    ensures SweepAll(fold, s, inputs).n > 0
  {
    SweepAllKeeps(fold, s, inputs, w);
    assert multiset(SweepAll(fold, s, inputs).Keys())[w] > 0;
  }

  lemma StumbledLeaves(fold: char -> char, s: Slice, c: string, e: string)
    requires s.Valid() && Stumbles(fold, c, s.Keys())
    ensures SweepAll(fold, s, [c] + LastInput(fold, c, e)).n > 0
  {
    var w :| w in Jumped(fold, c, s.Keys()) && EqualFold(fold, c, w) && w != s.Keys()[|s.Keys()| - 1];
    WholeSweep(fold, s, c, w);
    var s' := Sweep(fold, s, c, 0, s.n);
    assert multiset(s'.Keys())[w] > 0;
    Survives(fold, s', LastInput(fold, c, e), w);
    assert ([c] + LastInput(fold, c, e))[1..] == LastInput(fold, c, e);
  }

  lemma StumblingMatches(fold: char -> char, keys: seq<string>, c: string, e: string)
    ensures AllMatched(fold, keys, Stumbling(fold, keys, c, e))
  {
    var others, inputs := Select(Neither(fold, c, e), keys), Stumbling(fold, keys, c, e);
    SelectMembers(Neither(fold, c, e), keys);
    forall k | 0 <= k < |keys| ensures Matched(fold, keys[k], inputs) {
      if EqualFold(fold, c, keys[k]) {
        assert EqualFold(fold, inputs[|others|], keys[k]);
      } else if EqualFold(fold, e, keys[k]) {
        assert EqualFold(fold, inputs[|others| + 1], keys[k]);
      } else {
        assert keys[k] in keys && Neither(fold, c, e)(keys[k]);
        assert keys[k] in others;
        var m :| 0 <= m < |others| && others[m] == keys[k];
        assert EqualFold(fold, inputs[m], keys[k]);
      }
    }
  }

  lemma StumblingLeaves(fold: char -> char, s: Slice, others: seq<string>, c: string, e: string)
    requires s.Valid() && Stumbles(fold, c, Only(fold, s.Keys(), c, e))
    requires forall k | k in others :: !EqualFold(fold, c, k) && !EqualFold(fold, e, k)
    ensures SweepAll(fold, s, others + ([c] + LastInput(fold, c, e))).n > 0
  {
    var p, last := Either(fold, c, e), [c] + LastInput(fold, c, e);
    SweepAllConcat(fold, s, others, last);
    SweepAllSelects(fold, s, others, p);
    var s' := SweepAll(fold, s, others);
    if w :| w in s'.Keys() && !p(w) {
      Survives(fold, s', last, w);
    } else {
      SelectAll(p, s'.Keys());
      StumbledLeaves(fold, s', c, e);
    }
  }

  /** Two sorts among which a sweep stumbles: inputs that match every valid key and are rejected. */
  lemma StumblingRejected(fold: char -> char, keys: seq<string>, c: string, e: string)
    requires Stumbles(fold, c, Only(fold, keys, c, e))
    ensures AllMatched(fold, keys, Stumbling(fold, keys, c, e)) && !Accepts(fold, keys, Stumbling(fold, keys, c, e))
  {
    StumblingMatches(fold, keys, c, e);
    SelectMembers(Neither(fold, c, e), keys);
    assert Slice(keys, |keys|).Keys() == keys;
    StumblingLeaves(fold, Slice(keys, |keys|), Select(Neither(fold, c, e), keys), c, e);
  }

  /**
   Which lists are validated rightly. For every valid list: accepting means matching every valid key,
   for all inputs, if and only if no sweep stumbles among the keys of any two sorts.
   */
  lemma ValidatesIff(fold: char -> char, keys: seq<string>)
    ensures (forall inputs :: Accepts(fold, keys, inputs) <==> AllMatched(fold, keys, inputs)) <==> SoundInPairs(fold, keys)
  {
    if SoundInPairs(fold, keys) {
      forall inputs ensures Accepts(fold, keys, inputs) <==> AllMatched(fold, keys, inputs) { SoundDecides(fold, keys, inputs); }
    } else {
      var c, e :| c in keys && e in keys && Stumbles(fold, c, Only(fold, keys, c, e));
      StumblingRejected(fold, keys, c, e);
    }
  }

  // ------------------------------------------------------------------ distinct and repeated keys

  predicate DistinctKeys(fold: char -> char, keys: seq<string>) {
    forall i, j | 0 <= i < j < |keys| :: !EqualFold(fold, keys[i], keys[j])
  }

  predicate NoneMatches(fold: char -> char, key: string, keys: seq<string>) {
    forall i | 0 <= i < |keys| :: !EqualFold(fold, key, keys[i])
  }

  /** Only the last key is repeated, and always in the same spelling. */
  predicate OnlyLastRepeated(fold: char -> char, keys: seq<string>) {
    forall i, j | 0 <= i < j < |keys| && EqualFold(fold, keys[i], keys[j]) :: keys[i] == keys[j] == keys[|keys| - 1]
  }

  lemma {:induction false} Neighbours(p: string -> bool, keys: seq<string>, k: nat) returns (i: nat, j: nat)
    requires k + 1 < |Select(p, keys)|
    ensures i < j < |keys| && keys[i] == Select(p, keys)[k] && keys[j] == Select(p, keys)[k + 1]
  {
    if !p(keys[0]) {
      i, j := Neighbours(p, keys[1..], k);
      i, j := i + 1, j + 1;
    } else if k > 0 {
      i, j := Neighbours(p, keys[1..], k - 1);
      i, j := i + 1, j + 1;
    } else {
      i := 0;
      var y := Select(p, keys[1..])[0];
      SelectMembers(p, keys[1..]);
      assert y in keys[1..];
      var m :| 0 <= m < |keys[1..]| && keys[1..][m] == y;
      j := m + 1;
    }
  }

  lemma OnlyLastRepeatedIsSound(fold: char -> char, keys: seq<string>)
    requires OnlyLastRepeated(fold, keys)
    ensures SoundInPairs(fold, keys)
  {
    forall c, e | c in keys && e in keys ensures !Stumbles(fold, c, Only(fold, keys, c, e)) {
      var p, only := Either(fold, c, e), Only(fold, keys, c, e);
      forall w | w in Jumped(fold, c, only) && EqualFold(fold, c, w) ensures w == only[|only| - 1] {
        var a, b, x := JumpedStands(fold, c, only, w);
        var k := |a| + |b| - 1;
        assert only[k] == b[|b| - 1] && only[k + 1] == w;
        var i, j := Neighbours(p, keys, k);
        assert w == keys[|keys| - 1];
        SelectLast(p, keys);
      }
    }
  }

  /** For valid keys that are distinct ignoring case, accepting means matching every one of them. */
  lemma DistinctAccepts(fold: char -> char, valid: seq<string>, inputs: seq<string>)
    requires DistinctKeys(fold, valid)
    ensures Accepts(fold, valid, inputs) <==> AllMatched(fold, valid, inputs)
  {
    OnlyLastRepeatedIsSound(fold, valid);
    SoundDecides(fold, valid, inputs);
  }

  lemma SelectTwo(p: string -> bool, keys: seq<string>, i: nat, j: nat)
    requires i < j < |keys| && p(keys[i]) && p(keys[j])
    ensures |Select(p, keys)| >= 2
  {
    assert keys == keys[..j] + keys[j..];
    SelectConcat(p, keys[..j], keys[j..]);
    SelectMembers(p, keys[..j]);
    SelectMembers(p, keys[j..]);
    assert keys[i] in keys[..j] && keys[j] in keys[j..];
    assert keys[i] in Select(p, keys[..j]) && keys[j] in Select(p, keys[j..]);
  }

  lemma TwoStumble(fold: char -> char, c: string, all: seq<string>, z: string)
    requires |all| >= 2 && EqualFold(fold, c, all[0]) && EqualFold(fold, c, all[1]) && !EqualFold(fold, c, z)
    ensures Stumbles(fold, c, all + [z])
  {
    assert all + [z] == [] + [all[0], all[1]] + (all + [z])[2..];
    NeighbourJumped(fold, c, [], all[0], all[1], (all + [z])[2..]);
  }

  lemma RepeatedStumbles(fold: char -> char, keys: seq<string>, i: nat, j: nat, z: string)
    requires i < j < |keys| && EqualFold(fold, keys[i], keys[j]) && NoneMatches(fold, z, keys)
    ensures Stumbles(fold, keys[i], Only(fold, keys + [z], keys[i], z))
  {
    var p := Either(fold, keys[i], z);
    var all := Select(p, keys);
    SelectTwo(p, keys, i, j);
    SelectLast(p, keys + [z]);
    assert (keys + [z])[..|keys|] == keys;
    SelectMembers(p, keys);
    assert all[0] in all && all[1] in all;
    TwoStumble(fold, keys[i], all, z);
  }

  /** For a valid list whose last key is like no other: it is decided rightly if and only if its keys are distinct ignoring case. */
  lemma ValidatesIffDistinct(fold: char -> char, keys: seq<string>, z: string)
    requires NoneMatches(fold, z, keys)
    ensures (forall inputs :: Accepts(fold, keys + [z], inputs) <==> AllMatched(fold, keys + [z], inputs))
            <==> DistinctKeys(fold, keys)
  {
    ValidatesIff(fold, keys + [z]);
    if DistinctKeys(fold, keys) {
      forall a, b | 0 <= a < b < |keys + [z]| ensures !EqualFold(fold, (keys + [z])[a], (keys + [z])[b]) {
        if b == |keys| { assert !EqualFold(fold, z, keys[a]); }
      }
      OnlyLastRepeatedIsSound(fold, keys + [z]);
    } else {
      var i, j :| 0 <= i < j < |keys| && EqualFold(fold, keys[i], keys[j]);
      RepeatedStumbles(fold, keys, i, j, z);
      assert keys[i] == (keys + [z])[i] && z == (keys + [z])[|keys|];
    }
  }

  /** Where the last key is repeated its spelling decides: two spellings of a key are validated rightly, but not with the first one again. */
  lemma SpellingMatters(fold: char -> char, a: string, b: string)
    requires EqualFold(fold, a, b) && a != b
    ensures SoundInPairs(fold, [a, b]) && !SoundInPairs(fold, [a, b, a])
  {
    forall c, e | c in [a, b] && e in [a, b] ensures !Stumbles(fold, c, Only(fold, [a, b], c, e)) {
      SelectAll(Either(fold, c, e), [a, b]);
      assert Jumped(fold, c, [a, b]) == [b];
    }
    SelectAll(Either(fold, a, a), [a, b, a]);
    assert b in Jumped(fold, a, [a, b, a]);
    assert Stumbles(fold, a, Only(fold, [a, b, a], a, a));
  }
}
