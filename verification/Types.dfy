/** Parsed types and their structural equality (`snuk_type.c`). */
module Types {
  datatype Ty =
    | TAny
    | TType
    | TNamed(name: string)
    | TFn(params: seq<Ty>, ret: Ty)
    | TInterface(members: seq<Member>)

  /** An interface member; interface members carry no value. */
  datatype Member = Member(name: string, ty: Ty)

  /**
  `snuk_type_equal`: its nested loops decide exactly structural identity, so on finite types it is reflexive,
  symmetric and transitive.
  */
  method TypeEqual(a: Ty, b: Ty) returns (eq: bool)
    ensures eq <==> a == b
    decreases a
  {
    match (a, b) {
      case (TAny, TAny) => return true;
      case (TType, TType) => return true;
      case (TNamed(x), TNamed(y)) => return x == y;
      case (TFn(ps, r), TFn(qs, s)) =>
        var sameReturn := TypeEqual(r, s);
        if !sameReturn || |ps| != |qs| {
          return false;
        }
        var i := 0;
        while i < |ps|
          invariant 0 <= i <= |ps| && ps[..i] == qs[..i]
        {
          var same := TypeEqual(ps[i], qs[i]);
          if !same {
            return false;
          }
          i := i + 1;
        }
        assert ps == ps[..i] && qs == qs[..i];
        return true;
      case (TInterface(ms), TInterface(ns)) =>
        if |ms| != |ns| {
          return false;
        }
        var i := 0;
        while i < |ms|
          invariant 0 <= i <= |ms| && ms[..i] == ns[..i]
        {
          if ms[i].name != ns[i].name {
            return false;
          }
          var same := TypeEqual(ms[i].ty, ns[i].ty);
          if !same {
            return false;
          }
          assert ms[i] == ns[i];
          i := i + 1;
        }
        assert ms == ms[..i] && ns == ns[..i];
        return true;
      case (_, _) => return false;
    }
  }
}
