/**
 * A method body as the synthesiser sees it: the method it belongs to (`info`), its
 * identity locals (`this`, absent in a static method, and one local per
 * parameter) and its chain of local declarations, which every fresh
 * temporary is appended to.
 */
module Bodies {
  import opened Jimple

  class Body {
    const info: MethodInfo
    const thisLocal: Option<Local>
    const paramLocals: seq<Local>
    var locals: seq<Type>

    /** The identity locals match the method: one per parameter, each of its type, and `this` of the declaring class. */
    predicate Shaped()
    {
      |paramLocals| == |info.paramTypes| &&
      (forall i :: 0 <= i < |paramLocals| ==> paramLocals[i].ty == info.paramTypes[i]) &&
      (thisLocal.Some? ==> thisLocal.value.ty == Ref(FullName(info.declaringClass)))
    }

    /** `l` is one of this body's locals, with its declared type. */
    ghost predicate Holds(l: Local)
      reads this
    {
      l.id < |locals| && locals[l.id] == l.ty
    }

    /** The body is shaped and every identity local is declared in its chain. */
    ghost predicate Valid()
      reads this
    {
      Shaped() &&
      (forall i :: 0 <= i < |paramLocals| ==> Holds(paramLocals[i])) &&
      (thisLocal.Some? ==> Holds(thisLocal.value))
    }

    constructor (info: MethodInfo, thisLocal: Option<Local>, paramLocals: seq<Local>, locals: seq<Type>)
      requires |paramLocals| == |info.paramTypes|
      requires forall i :: 0 <= i < |paramLocals| ==>
                 paramLocals[i].ty == info.paramTypes[i] &&
                 paramLocals[i].id < |locals| && locals[paramLocals[i].id] == paramLocals[i].ty
      requires thisLocal.Some? ==>
                 thisLocal.value.ty == Ref(FullName(info.declaringClass)) &&
                 thisLocal.value.id < |locals| && locals[thisLocal.value.id] == thisLocal.value.ty
      ensures Valid()
      ensures this.info == info && this.thisLocal == thisLocal
      ensures this.paramLocals == paramLocals && this.locals == locals
    {
      this.info := info;
      this.thisLocal := thisLocal;
      this.paramLocals := paramLocals;
      this.locals := locals;
    }

    /**
     * A fresh local of type `t`: its id is past every local of the body,
     * so it is none of the identity locals, and the body's local chain
     * gains exactly that declaration.
     */
    method NewLocal(t: Type) returns (l: Local)
      modifies this
      ensures l == Local(|old(locals)|, t)
      ensures locals == old(locals) + [t]
      ensures old(Valid()) ==> Valid() && Holds(l) && l !in paramLocals && thisLocal != Some(l)
    {
      l := Local(|locals|, t);
      locals := locals + [t];
    }
  }
}
