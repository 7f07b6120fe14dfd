/** Printing follows the fields of instances: it ends exactly when no instance on the way contains itself. */
module Printing {
  import opened Wrappers
  import opened Types
  import opened Syntax
  import opened Store
  import HandleGraph

  /** Printing the instance `a` prints the instance `b` as the value of a field; `self` is left out. */
  predicate Contains(h: Heap, a: Ref, b: Ref) {
    exists j :: 0 <= j < |Vars(h, a)| && Prints(Vars(h, a)[j], b)
  }

  predicate Prints(e: Env, b: Ref) {
    e.name != "self" && e.value.InstV? && e.value.closure == b
  }

  predicate Nested(h: Heap, p: seq<Ref>) {
    forall i :: 0 < i < |p| ==> Contains(h, p[i - 1], p[i])
  }

  /** `p` goes from `a` through instances contained in each other and comes to one of them twice. */
  predicate Endless(h: Heap, a: Ref, p: seq<Ref>, i: nat) {
    Nested(h, p) && i < |p| - 1 && p[0] == a && p[i] == p[|p| - 1]
  }

  lemma {:induction false} FieldFails(h: Heap, vars: seq<Env>, n: nat, j: nat)
    requires j < |vars| && vars[j].name != "self" && Show(h, vars[j].value, n) == None
    ensures ShowFields(h, vars, n) == None
  {
    if j > 0 {
      FieldFails(h, vars[1..], n, j - 1);
    }
  }

  lemma {:induction false} SomeFieldFails(h: Heap, vars: seq<Env>, n: nat) returns (j: nat)
    requires ShowFields(h, vars, n) == None
    ensures j < |vars| && vars[j].name != "self" && Show(h, vars[j].value, n) == None
  {
    if vars[0].name != "self" && Show(h, vars[0].value, n) == None {
      j := 0;
    } else {
      j := SomeFieldFails(h, vars[1..], n);
      j := j + 1;
    }
  }

  /** No amount of fuel is enough for an instance on the endless path. */
  lemma {:induction false} NeverShown(h: Heap, a: Ref, p: seq<Ref>, i: nat, k: nat, v: Value, n: nat)
    requires Endless(h, a, p, i) && k < |p| - 1 && v.InstV? && v.closure == p[k]
    ensures Show(h, v, n) == None
    decreases n
  {
    if n > 0 {
      assert Contains(h, p[k], p[k + 1]);
      var j :| 0 <= j < |Vars(h, p[k])| && Prints(Vars(h, p[k])[j], p[k + 1]);
      NeverShown(h, a, p, i, if k + 1 < |p| - 1 then k + 1 else i, Vars(h, p[k])[j].value, n - 1);
      FieldFails(h, Vars(h, p[k]), n - 1, j);
    }
  }

  /** What cannot be shown with fuel `n` nests at least that deep. */
  lemma {:induction false} DeepNesting(h: Heap, v: Value, n: nat) returns (p: seq<Ref>)
    requires Show(h, v, n) == None
    ensures v.InstV? && |p| == n + 1 && p[0] == v.closure && Nested(h, p)
    ensures forall i :: 0 <= i < n ==> p[i] < |h.scopes|
    decreases n
  {
    if n == 0 {
      p := [v.closure];
    } else {
      var vars := Vars(h, v.closure);
      var j := SomeFieldFails(h, vars, n - 1);
      var q := DeepNesting(h, vars[j].value, n - 1);
      assert Prints(vars[j], q[0]);
      p := [v.closure] + q;
    }
  }

  /**
  Printing a value ends, with some amount of fuel, if and only if no chain of instances that contain each other leads
  from it to the same instance twice.
  */
  lemma PrintingEnds(h: Heap, v: Value)
    ensures (exists n :: Show(h, v, n).Some?) <==>
            !(v.InstV? && exists p, i :: Endless(h, v.closure, p, i))
  {
    if v.InstV? {
      if p, i :| Endless(h, v.closure, p, i) {
        forall n ensures Show(h, v, n) == None {
          NeverShown(h, v.closure, p, i, 0, v, n);
        }
      }
    }
    var deep := |h.scopes| + 1;
    if Show(h, v, deep) == None {
      var p, i := Repeats(h, v, deep);
    } else {
      assert Show(h, v, deep).Some?;
    }
  }

  lemma Repeats(h: Heap, v: Value, n: nat) returns (p: seq<Ref>, i: nat)
    requires Show(h, v, n) == None && n > |h.scopes|
    ensures v.InstV? && Endless(h, v.closure, p, i)
  {
    var q := DeepNesting(h, v, n);
    var j;
    i, j := HandleGraph.Pigeonhole(q[..n], Below(|h.scopes|));
    p := q[..j + 1];
  }

  function Below(n: nat): (all: set<nat>)
    ensures |all| == n && forall k: nat :: k in all <==> k < n
  {
    if n == 0 then {} else Below(n - 1) + {n - 1}
  }

  /** `o.x = o` makes an instance that cannot be printed: the C code calls itself until its stack is used up. */
  lemma SelfContained(h: Heap, o: Value, j: nat, n: nat)
    requires o.InstV? && j < |Vars(h, o.closure)|
    requires Vars(h, o.closure)[j].name != "self" && Vars(h, o.closure)[j].value == o
    ensures Show(h, o, n) == None
  {
    assert Prints(Vars(h, o.closure)[j], o.closure);
    assert Endless(h, o.closure, [o.closure, o.closure], 0);
    NeverShown(h, o.closure, [o.closure, o.closure], 0, 0, o, n);
  }

  // ---------------------------------------------------------------------------------------------------
  // What is shown

  /** How many bindings are not `self`. */
  function Others(vars: seq<Env>): nat {
    if vars == [] then 0 else Others(vars[..|vars| - 1]) + if vars[|vars| - 1].name == "self" then 0 else 1
  }

  lemma {:induction false} OthersFromFront(vars: seq<Env>)
    requires vars != []
    ensures Others(vars) == Others(vars[1..]) + if vars[0].name == "self" then 0 else 1
  {
    var last := |vars| - 1;
    if last > 0 {
      OthersFromFront(vars[..last]);
      assert vars[..last][1..] == vars[1..][..last - 1];
      assert vars[1..][last - 1] == vars[last];
    } else {
      assert vars[1..] == [] && vars[..last] == [];
    }
  }

  /** Every binding but `self` is shown, in order, with its name, its annotation and what its value shows. */
  lemma {:induction false} FieldsShown(h: Heap, vars: seq<Env>, n: nat, k: nat)
    requires ShowFields(h, vars, n).Some? && k < |vars| && vars[k].name != "self"
    ensures var fields := ShowFields(h, vars, n).value;
            && |fields| == Others(vars) && Others(vars[..k]) < |fields|
            && Show(h, vars[k].value, n).Some?
            && fields[Others(vars[..k])] == Field(vars[k].name, vars[k].ty, Show(h, vars[k].value, n).value)
  {
    var rest := vars[1..];
    OthersFromFront(vars);
    AllFields(h, rest, n);
    if k > 0 {
      FieldsShown(h, rest, n, k - 1);
      assert vars[..k][1..] == rest[..k - 1];
      OthersFromFront(vars[..k]);
    }
  }

  lemma {:induction false} AllFields(h: Heap, vars: seq<Env>, n: nat)
    requires ShowFields(h, vars, n).Some?
    ensures |ShowFields(h, vars, n).value| == Others(vars)
  {
    if vars != [] {
      OthersFromFront(vars);
      AllFields(h, vars[1..], n);
    }
  }
}
