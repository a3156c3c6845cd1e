/**
 The signature matching loop of OP_CHECKMULTISIG, for an arbitrary relation
 between signatures and keys.
 */
module Multisig {

  datatype Match = Match(ok: bool, calls: nat)

  // Which signature is right for which key
  type Check<!Sig, !Key> = (Sig, Key) -> bool

  // Signatures and keys are both taken in order, and each key is tried once.
  function Greedy<Sig, Key>(check: Check<Sig, Key>, sigs: seq<Sig>, keys: seq<Key>): Match
    requires |sigs| <= |keys|
    decreases |keys|
  {
    if sigs == [] then Match(true, 0) else
    var left := if check(sigs[0], keys[0]) then sigs[1..] else sigs;
    if |left| > |keys| - 1 then Match(false, 1) else
    var r := Greedy(check, left, keys[1..]);
    Match(r.ok, r.calls + 1)
  }

  method CheckMultisig<Sig, Key>(check: Check<Sig, Key>, sigs: seq<Sig>, keys: seq<Key>) returns (r: Match)
    requires |sigs| <= |keys|
    ensures r == Greedy(check, sigs, keys)
  {
    var ok, isig, ikey: nat := true, 0, 0;
    while ok && isig < |sigs|
      invariant isig <= |sigs| && ikey <= |keys|
      invariant ok ==> |sigs| - isig <= |keys| - ikey
      invariant ok ==> Greedy(check, sigs, keys) == var g := Greedy(check, sigs[isig..], keys[ikey..]); Match(g.ok, ikey + g.calls)
      invariant !ok ==> Greedy(check, sigs, keys) == Match(false, ikey)
      decreases |keys| - ikey, ok
    {
      assert sigs[isig..][1..] == sigs[isig + 1..] && keys[ikey..][1..] == keys[ikey + 1..];
      if check(sigs[isig], keys[ikey]) {
        isig := isig + 1;
      }
      ikey := ikey + 1;
      if |sigs| - isig > |keys| - ikey {
        ok := false;
      }
    }
    return Match(ok, ikey);
  }

  // f gives every signature a key it is right for, keeping the order and
  // using no key twice.
  ghost predicate Assigns<Sig, Key>(check: Check<Sig, Key>, sigs: seq<Sig>, keys: seq<Key>, f: seq<nat>) {
    && |f| == |sigs|
    && (forall i | 0 <= i < |f| :: f[i] < |keys| && check(sigs[i], keys[f[i]]))
    && (forall i, j | 0 <= i < j < |f| :: f[i] < f[j])
  }

  ghost predicate Assignable<Sig, Key>(check: Check<Sig, Key>, sigs: seq<Sig>, keys: seq<Key>) {
    exists f :: Assigns(check, sigs, keys, f)
  }

  // An assignment that does not use the first key is one for the other keys.
  lemma DropKey<Sig, Key>(check: Check<Sig, Key>, sigs: seq<Sig>, keys: seq<Key>, f: seq<nat>) returns (g: seq<nat>)
    requires keys != [] && Assigns(check, sigs, keys, f) && (f == [] || f[0] > 0)
    ensures Assigns(check, sigs, keys[1..], g)
  {
    forall i | 0 <= i < |f| ensures f[i] > 0 {
      assert i > 0 ==> f[0] < f[i];
    }
    g := seq(|f|, i requires 0 <= i < |f| => f[i] - 1);
  }

  lemma AddKey<Sig, Key>(check: Check<Sig, Key>, sigs: seq<Sig>, keys: seq<Key>, f: seq<nat>) returns (g: seq<nat>)
    requires keys != [] && Assigns(check, sigs, keys[1..], f)
    ensures Assigns(check, sigs, keys, g) && (g == [] || g[0] > 0)
  {
    g := seq(|f|, i requires 0 <= i < |f| => f[i] + 1);
  }

  // The first signature is served by a key before those of the others.
  lemma DropSignature<Sig, Key>(check: Check<Sig, Key>, sigs: seq<Sig>, keys: seq<Key>, f: seq<nat>) returns (g: seq<nat>)
    requires sigs != [] && Assigns(check, sigs, keys, f)
    ensures Assigns(check, sigs[1..], keys, g) && (g == [] || g[0] > 0)
    ensures f == [f[0]] + g && keys != [] && (f[0] == 0 ==> check(sigs[0], keys[0]))
  {
    g := f[1..];
    assert forall i | 0 <= i < |g| :: g[i] == f[i + 1] && sigs[1..][i] == sigs[i + 1];
    assert g != [] ==> f[0] < g[0];
  }

  lemma AddSignature<Sig, Key>(check: Check<Sig, Key>, sigs: seq<Sig>, keys: seq<Key>, g: seq<nat>)
    requires sigs != [] && keys != [] && check(sigs[0], keys[0])
    requires Assigns(check, sigs[1..], keys, g) && (g == [] || g[0] > 0)
    ensures Assigns(check, sigs, keys, [0] + g)
  {
    var f := [0] + g;
    assert forall i | 0 < i < |f| :: f[i] == g[i - 1] && sigs[i] == sigs[1..][i - 1];
    forall i | 0 <= i < |g| ensures g[i] > 0 {
      assert i > 0 ==> g[0] < g[i];
    }
  }

  // There is room for no more signatures than keys.
  lemma {:induction false} Injective(f: seq<nat>, n: nat)
    requires forall i | 0 <= i < |f| :: f[i] < n
    requires forall i, j | 0 <= i < j < |f| :: f[i] < f[j]
    ensures |f| <= n
    decreases |f|
  {
    if f != [] {
      var last := |f| - 1;
      Injective(f[..last], f[last]);
    }
  }

  lemma Room<Sig, Key>(check: Check<Sig, Key>, sigs: seq<Sig>, keys: seq<Key>, f: seq<nat>)
    requires Assigns(check, sigs, keys, f)
    ensures |sigs| <= |keys|
  {
    Injective(f, |keys|);
  }

  // Greedy matching finds an assignment when there is one: if the first
  // signature is right for the first key, that key may as well serve it.
  lemma {:induction false} Complete<Sig, Key>(check: Check<Sig, Key>, sigs: seq<Sig>, keys: seq<Key>, f: seq<nat>)
    requires |sigs| <= |keys| && Assigns(check, sigs, keys, f)
    ensures Greedy(check, sigs, keys).ok
    decreases |keys|
  {
    hide Assigns;
    if sigs != [] {
      var g := DropSignature(check, sigs, keys, f);
      var left := if check(sigs[0], keys[0]) then sigs[1..] else sigs;
      var h := DropKey(check, left, keys, if check(sigs[0], keys[0]) then g else f);
      Room(check, left, keys[1..], h);
      Complete(check, left, keys[1..], h);
    }
  }

  // What greedy matching accepts has an assignment.
  lemma {:induction false} SoundMatch<Sig, Key>(check: Check<Sig, Key>, sigs: seq<Sig>, keys: seq<Key>) returns (f: seq<nat>)
    requires |sigs| <= |keys| && Greedy(check, sigs, keys).ok
    ensures Assigns(check, sigs, keys, f)
    decreases |keys|
  {
    if sigs == [] {
      f := [];
    } else {
      hide Assigns;
      var left := if check(sigs[0], keys[0]) then sigs[1..] else sigs;
      var g := SoundMatch(check, left, keys[1..]);
      f := AddKey(check, left, keys, g);
      if check(sigs[0], keys[0]) {
        AddSignature(check, sigs, keys, f);
        f := [0] + f;
      }
    }
  }

  /** The loop succeeds exactly if the signatures can be assigned to keys in
      order, each key used at most once. */
  lemma GreedyDecides<Sig, Key>(check: Check<Sig, Key>, sigs: seq<Sig>, keys: seq<Key>)
    requires |sigs| <= |keys|
    ensures Greedy(check, sigs, keys).ok <==> Assignable(check, sigs, keys)
  {
    if Greedy(check, sigs, keys).ok {
      var f := SoundMatch(check, sigs, keys);
    } else if Assignable(check, sigs, keys) {
      var f :| Assigns(check, sigs, keys, f);
      Complete(check, sigs, keys, f);
    }
  }

  /** No key is tried twice. */
  lemma {:induction false} CallsBound<Sig, Key>(check: Check<Sig, Key>, sigs: seq<Sig>, keys: seq<Key>)
    requires |sigs| <= |keys|
    ensures |sigs| <= Greedy(check, sigs, keys).calls || !Greedy(check, sigs, keys).ok
    ensures Greedy(check, sigs, keys).calls <= |keys|
    decreases |keys|
  {
    if sigs != [] {
      var left := if check(sigs[0], keys[0]) then sigs[1..] else sigs;
      if |left| <= |keys| - 1 {
        CallsBound(check, left, keys[1..]);
      }
    }
  }
}
