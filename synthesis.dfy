/**
 * What each step of the probe synthesiser emits, as functions of its inputs
 * and of `n`, the id the body's next fresh local will get.  A step that
 * allocates temporaries t0, t1, ... gives them ids n, n+1, ... in
 * allocation order.  The generator's methods are proved to emit exactly
 * this; the properties of what is emitted are proved here.
 */
module Synthesis {
  import opened Jimple
  import opened Hierarchy

  const ACTIVITY_TAG: string := "<ACTIVITY>"
  const FRAGMENT_TAG: string := "<FRAGMENT>"
  const METHOD_TAG: string := "<METHOD>"
  const CONTROL_TAG: string := "<CONTROL>"

  const ACTIVITY_PREFIX: string := ACTIVITY_TAG + " Activity: "
  const FRAGMENT_PREFIX: string := FRAGMENT_TAG + " Fragment: "
  const ACTIVITY_SUFFIX: string := " Activity: "

  /** The message of the plain probe. */
  function MethodMessage(signature: string): string
  {
    METHOD_TAG + " Method: " + signature
  }

  /** The literal the widget and menu probes append the id to. */
  function ControlMessage(signature: string): string
  {
    CONTROL_TAG + " Method: " + signature + " View: "
  }

  /** Operands the string coercion accepts: strings, primitives and locals. */
  predicate Coercible(v: Value)
  {
    TypeOf(v) == STRING || TypeOf(v).Prim? || v.LocalV?
  }

  function Then<A, B>(a: Emitted<A>, b: Emitted<B>): Emitted<B>
  {
    Emitted(a.units + b.units, a.temps + b.temps, b.outcome)
  }

  function Abort<A, B>(a: Emitted<A>): Emitted<B>
    requires a.outcome.Err?
  {
    Emitted(a.units, a.temps, Err(a.outcome.error))
  }

  function Nothing(): Emitted<()>
  {
    Emitted([], [], Ok(()))
  }

  /**
   * String coercion: a string operand is returned as it is; a primitive goes
   * through `String.valueOf` for its own type, a non-string local through
   * `Object.toString`, each into one fresh String temporary; anything else
   * fails and emits nothing.
   */
  function Coerce(v: Value, n: nat): (e: Emitted<Value>)
    ensures e.outcome.Ok? <==> Coercible(v)
  {
    var t := TypeOf(v);
    if t == STRING then Emitted([], [], Ok(v))
    else if t.Prim? then
      var tmp := Local(n, STRING);
      Emitted([AssignInvoke(tmp, StaticInvoke(ValueOf(t.kind), [v]))], [STRING], Ok(LocalV(tmp)))
    else if v.LocalV? then
      var tmp := Local(n, STRING);
      Emitted([AssignInvoke(tmp, VirtualInvoke(v.local, OBJECT_TO_STRING, []))], [STRING], Ok(LocalV(tmp)))
    else Emitted([], [], Err(UnsupportedOperand(v)))
  }

  /**
   * A StringBuilder seeded with `init`.  The String temporary that will
   * receive the built string is allocated first (id n), the builder second
   * (id n + 1); the outcome is the builder.
   */
  function StartBuilder(init: Value, n: nat): Emitted<Local>
  {
    var builder := Local(n + 1, BUILDER);
    Emitted([AssignNew(builder, BUILDER_CLASS), InvokeStmt(SpecialInvoke(builder, BUILDER_INIT, [init]))],
            [STRING, BUILDER], Ok(builder))
  }

  /** One append: the coercion of `v`, then `builder.append` of it into a fresh StringBuilder temporary. */
  function AppendStep(builder: Local, v: Value, n: nat): Emitted<()>
  {
    var c := Coerce(v, n);
    match c.outcome
    case Err(err) => Emitted(c.units, c.temps, Err(err))
    case Ok(s) =>
      Emitted(c.units + [AssignInvoke(Local(n + |c.temps|, BUILDER), VirtualInvoke(builder, BUILDER_APPEND, [s]))],
              c.temps + [BUILDER], Ok(()))
  }

  /** The builder's toString into the String temporary reserved for it. */
  function BuildString(builder: Local, result: Local): Stmt
  {
    AssignInvoke(result, VirtualInvoke(builder, BUILDER_TO_STRING, []))
  }

  /**
   * StringBuilder concatenation: new, <init>(v1), the coercion of v2 (none
   * for a string), append, toString.  The result is the String temporary
   * allocated first and assigned last.  When v2 cannot be coerced, the new
   * and <init> statements have already been emitted.
   */
  function Append(v1: Value, v2: Value, n: nat): (e: Emitted<Local>)
    ensures e.outcome.Ok? <==> Coercible(v2)
  {
    var start := StartBuilder(v1, n);
    var step := AppendStep(Local(n + 1, BUILDER), v2, n + 2);
    match step.outcome
    case Err(err) => Emitted(start.units + step.units, start.temps + step.temps, Err(err))
    case Ok(_) =>
      Emitted(start.units + step.units + [BuildString(Local(n + 1, BUILDER), Local(n, STRING))],
              start.temps + step.temps, Ok(Local(n, STRING)))
  }

  /**
   * The coercion's cases: a string comes back as it is with nothing
   * emitted; a primitive or a non-string local yields one fresh String
   * temporary assigned by `String.valueOf` of the primitive's own type or
   * by `Object.toString`; anything else fails with nothing emitted.
   */
  lemma CoerceCases(v: Value, n: nat)
    ensures var e := Coerce(v, n);
            e.outcome.Ok? ==> TypeOf(e.outcome.value) == STRING
    ensures TypeOf(v) == STRING ==> Coerce(v, n) == Emitted([], [], Ok(v))
    ensures var e := Coerce(v, n);
            Coercible(v) && TypeOf(v) != STRING ==>
              e.temps == [STRING] && |e.units| == 1 &&
              e.outcome == Ok(LocalV(Local(n, STRING))) &&
              Def(e.units[0]) == Some(Local(n, STRING))
    ensures TypeOf(v).Prim? ==>
              Coerce(v, n).units == [AssignInvoke(Local(n, STRING), StaticInvoke(ValueOf(TypeOf(v).kind), [v]))]
    ensures TypeOf(v).Ref? && TypeOf(v) != STRING && v.LocalV? ==>
              Coerce(v, n).units == [AssignInvoke(Local(n, STRING), VirtualInvoke(v.local, OBJECT_TO_STRING, []))]
    ensures !Coercible(v) ==> Coerce(v, n) == Emitted([], [], Err(UnsupportedOperand(v)))
  {
  }

  /** An append of a string operand is the single append statement. */
  lemma AppendString(builder: Local, v: Value, n: nat)
    requires TypeOf(v) == STRING
    ensures AppendStep(builder, v, n) ==
            Emitted([AssignInvoke(Local(n, BUILDER), VirtualInvoke(builder, BUILDER_APPEND, [v]))], [BUILDER], Ok(()))
  {
    CoerceCases(v, n);
  }

  /**
   * Concatenation is four statements for a string second operand and five
   * otherwise: new, <init>(v1), the coercion of v2, append, toString.  The
   * result is the String temporary allocated first and assigned by the
   * last statement.  When v2 cannot be coerced only new and <init> have
   * been emitted.
   */
  lemma AppendShape(v1: Value, v2: Value, n: nat)
    ensures var e := Append(v1, v2, n);
            Coercible(v2) ==> |e.units| == if TypeOf(v2) == STRING then 4 else 5
    ensures var e := Append(v1, v2, n);
            |e.units| >= 2 &&
            e.units[0] == AssignNew(Local(n + 1, BUILDER), BUILDER_CLASS) &&
            e.units[1] == InvokeStmt(SpecialInvoke(Local(n + 1, BUILDER), BUILDER_INIT, [v1]))
    ensures var e := Append(v1, v2, n);
            Coercible(v2) && TypeOf(v2) != STRING ==>
              e.units[2] == Coerce(v2, n + 2).units[0]
    ensures var e := Append(v1, v2, n);
            Coercible(v2) ==>
              var m := |e.units|;
              e.outcome.value == Local(n, STRING) &&
              e.temps == [STRING, BUILDER] + Coerce(v2, n + 2).temps + [BUILDER] &&
              e.units[m - 2] == AssignInvoke(Local(n + |e.temps| - 1, BUILDER),
                                             VirtualInvoke(Local(n + 1, BUILDER), BUILDER_APPEND, [Coerce(v2, n + 2).outcome.value])) &&
              e.units[m - 1] == AssignInvoke(e.outcome.value, VirtualInvoke(Local(n + 1, BUILDER), BUILDER_TO_STRING, []))
    ensures var e := Append(v1, v2, n);
            !Coercible(v2) ==> |e.units| == 2 && e.temps == [STRING, BUILDER]
  {
    CoerceCases(v2, n + 2);
  }

  /** Print: load System.out into a fresh PrintStream temporary, then println(msg) on it. */
  function Print(msg: Value, n: nat): (e: Emitted<()>)
    ensures |e.units| == 2 && e.temps == [PRINT_STREAM] && e.outcome.Ok?
    ensures e.units[0] == AssignField(Local(n, PRINT_STREAM), SYSTEM_OUT)
    ensures e.units[1] == InvokeStmt(VirtualInvoke(Def(e.units[0]).value, PRINTLN, [msg]))
  {
    var out := Local(n, PRINT_STREAM);
    Emitted([AssignField(out, SYSTEM_OUT), InvokeStmt(VirtualInvoke(out, PRINTLN, [msg]))], [PRINT_STREAM], Ok(()))
  }

  /** The runtime class name of `obj`: getClass, then getName, into a fresh String. */
  function ClassNameOf(obj: Local, n: nat): (e: Emitted<Local>)
    ensures |e.units| == 2 && e.temps == [CLASS, STRING]
    ensures e.outcome == Ok(Local(n + 1, STRING))
    ensures e.units[0] == AssignInvoke(Local(n, CLASS), VirtualInvoke(obj, GET_CLASS, []))
    ensures e.units[1] == AssignInvoke(e.outcome.value, VirtualInvoke(Local(n, CLASS), GET_NAME, []))
  {
    var cls := Local(n, CLASS);
    var name := Local(n + 1, STRING);
    Emitted([AssignInvoke(cls, VirtualInvoke(obj, GET_CLASS, [])),
             AssignInvoke(name, VirtualInvoke(cls, GET_NAME, []))], [CLASS, STRING], Ok(name))
  }

  /** The runtime class name of `this`; a static method has no `this` and fails before emitting. */
  function GetName(thisLocal: Option<Local>, n: nat): (e: Emitted<Local>)
    ensures thisLocal.None? ==> e == Emitted([], [], Err(NoThisLocal))
    ensures thisLocal.Some? ==> e == ClassNameOf(thisLocal.value, n)
  {
    match thisLocal
    case None => Emitted([], [], Err(NoThisLocal))
    case Some(t) => ClassNameOf(t, n)
  }

  /** A View's id: one virtual call of getId into a fresh int. */
  function GetId(param: Local, n: nat): (e: Emitted<Local>)
    ensures e.temps == [INT] && e.outcome == Ok(Local(n, INT))
    ensures e.units == [AssignInvoke(Local(n, INT), VirtualInvoke(param, VIEW_GET_ID, []))]
  {
    Emitted([AssignInvoke(Local(n, INT), VirtualInvoke(param, VIEW_GET_ID, []))], [INT], Ok(Local(n, INT)))
  }

  /** A MenuItem's id: one interface call of getItemId into a fresh int. */
  function GetItemId(param: Local, n: nat): (e: Emitted<Local>)
    ensures e.temps == [INT] && e.outcome == Ok(Local(n, INT))
    ensures e.units == [AssignInvoke(Local(n, INT), InterfaceInvoke(param, MENU_GET_ITEM_ID, []))]
  {
    Emitted([AssignInvoke(Local(n, INT), InterfaceInvoke(param, MENU_GET_ITEM_ID, []))], [INT], Ok(Local(n, INT)))
  }

  /** The lifecycle preface: "<ACTIVITY> Activity: " + runtime class name, printed. */
  function OnCreateProbe(thisLocal: Option<Local>, n: nat): (e: Emitted<()>)
    ensures e.outcome.Ok? <==> thisLocal.Some?
  {
    var g := GetName(thisLocal, n);
    if g.outcome.Err? then Abort(g)
    else
      var a := Append(StrConst(ACTIVITY_PREFIX), LocalV(g.outcome.value), n + |g.temps|);
      Then(Then(g, a), Print(LocalV(a.outcome.value), n + |g.temps| + |a.temps|))
  }

  /**
   * The guarded part of the fragment link: append " Activity: ", take the
   * activity's runtime class name, append it.
   */
  function ActivityName(builder: Local, activity: Local, n: nat): Emitted<()>
  {
    var a := AppendStep(builder, StrConst(ACTIVITY_SUFFIX), n);
    var cn := ClassNameOf(activity, n + |a.temps|);
    Then(Then(a, cn), AppendStep(builder, LocalV(cn.outcome.value), n + |a.temps| + |cn.temps|))
  }

  /**
   * The fragment-host link.  The builder starts from "<FRAGMENT> Fragment: "
   * and the fragment's runtime class name is appended; a static method has
   * no `this`, and the link fails once the builder's new and <init> are
   * emitted.  The rest is FragmentRest.
   */
  function FragmentLink(h: Scene, fragment: string, thisLocal: Option<Local>, n: nat): (e: Emitted<()>)
    requires WellFormed(h) && fragment in h
    ensures e.outcome.Ok? <==> thisLocal.Some?
  {
    var start := StartBuilder(StrConst(FRAGMENT_PREFIX), n);
    match GetName(thisLocal, n + 2).outcome
    case Err(err) => Emitted(start.units, start.temps, Err(err))
    case Ok(_) => Then(FragmentHead(thisLocal.value, n), FragmentRest(h, fragment, thisLocal.value, n))
  }

  /** The builder seeded with the fragment prefix, with the class name of `this` appended. */
  function FragmentHead(self: Local, n: nat): Emitted<()>
  {
    var name := ClassNameOf(self, n + 2);
    Then(Then(StartBuilder(StrConst(FRAGMENT_PREFIX), n), name),
         AppendStep(Local(n + 1, BUILDER), LocalV(name.outcome.value), n + 4))
  }

  /**
   * What follows the head, whose five temporaries took ids n .. n + 4.
   * When an ancestor declares getActivity, the activity is fetched into a
   * temporary typed as that ancestor, a null test on it is placed right
   * after that assignment, and it jumps to the builder's toString, skipping
   * " Activity: " and the activity's class name.  The toString and the
   * print are always emitted.
   */
  function FragmentRest(h: Scene, fragment: string, self: Local, n: nat): (e: Emitted<()>)
    requires WellFormed(h) && fragment in h
    ensures e.outcome.Ok? && |e.units| == (if FindGetActivity(h, fragment).None? then 3 else 9)
  {
    var appended := Local(n, STRING);
    var builder := Local(n + 1, BUILDER);
    var toString := BuildString(builder, appended);
    match FindGetActivity(h, fragment)
    case None =>
      var p := Print(LocalV(appended), n + 5);
      Emitted([toString] + p.units, p.temps, Ok(()))
    case Some(found) =>
      var activity := Local(n + 5, Ref(found.cls));
      var fetch := AssignInvoke(activity, VirtualInvoke(self, MethodRef(found.cls, found.decl.subsignature), []));
      var link := ActivityName(builder, activity, n + 6);
      var p := Print(LocalV(appended), n + 6 + |link.temps|);
      Emitted([fetch] + ([IfEqNull(activity, toString)] + (link.units + [toString] + p.units)),
              [activity.ty] + link.temps + p.temps, Ok(()))
  }

  /** The control report: the id appended to "<CONTROL> Method: <sig> View: ", printed. */
  function ControlReport(signature: string, id: Local, n: nat): Emitted<()>
  {
    var a := Append(StrConst(ControlMessage(signature)), LocalV(id), n);
    Then(a, Print(LocalV(a.outcome.value), n + |a.temps|))
  }

  /** The probe every instrumented method gets, chosen by its first parameter's type. */
  function GenericProbe(info: MethodInfo, params: seq<Local>, n: nat): (e: Emitted<()>)
    requires |params| == |info.paramTypes|
    ensures e.outcome.Ok?
  {
    if |info.paramTypes| >= 1 && info.paramTypes[0] == VIEW then
      var id := GetId(params[0], n);
      Then(id, ControlReport(info.signature, id.outcome.value, n + 1))
    else if |info.paramTypes| >= 1 && info.paramTypes[0] == MENU_ITEM then
      var id := GetItemId(params[0], n);
      Then(id, ControlReport(info.signature, id.outcome.value, n + 1))
    else
      Print(StrConst(MethodMessage(info.signature)), n)
  }

  /**
   * Everything emitted for one method: the lifecycle preface for a method
   * named onCreate, the fragment link for one named onCreateView (the two
   * tests are independent, and no name passes both), then the generic probe.
   */
  function InstrumentUnits(h: Scene, info: MethodInfo, thisLocal: Option<Local>, params: seq<Local>, n: nat): (e: Emitted<()>)
    requires WellFormed(h) && FullName(info.declaringClass) in h
    requires |params| == |info.paramTypes|
    ensures e.outcome.Err? <==> thisLocal.None? && (info.name == "onCreate" || info.name == "onCreateView")
  {
    var pre := Preface(h, info, thisLocal, n);
    if pre.outcome.Err? then pre
    else Then(pre, GenericProbe(info, params, n + |pre.temps|))
  }

  /** The whole list is the preface, then, unless the preface failed, the generic probe. */
  lemma InstrumentUnitsSplit(h: Scene, info: MethodInfo, thisLocal: Option<Local>, params: seq<Local>, n: nat)
    requires WellFormed(h) && FullName(info.declaringClass) in h
    requires |params| == |info.paramTypes|
    ensures var pre := Preface(h, info, thisLocal, n);
            InstrumentUnits(h, info, thisLocal, params, n) ==
              if pre.outcome.Err? then pre else Then(pre, GenericProbe(info, params, n + |pre.temps|))
  {
  }

  /** The name-selected preface before the generic probe. */
  function Preface(h: Scene, info: MethodInfo, thisLocal: Option<Local>, n: nat): (e: Emitted<()>)
    requires WellFormed(h) && FullName(info.declaringClass) in h
    ensures e.outcome.Err? <==> thisLocal.None? && (info.name == "onCreate" || info.name == "onCreateView")
    ensures info.name != "onCreate" && info.name != "onCreateView" ==> e.units == [] && e.temps == []
  {
    if info.name == "onCreate" then OnCreateProbe(thisLocal, n)
    else if info.name == "onCreateView" then FragmentLink(h, FullName(info.declaringClass), thisLocal, n)
    else Nothing()
  }

  /**
   * The lifecycle preface is exactly eight statements: the class name of
   * `this`, a builder seeded with "<ACTIVITY> Activity: " to which that name
   * is appended, and the print of the built string.  In a static method it
   * fails before emitting anything.
   */
  lemma OnCreateProbeShape(thisLocal: Option<Local>, n: nat)
    ensures var e := OnCreateProbe(thisLocal, n);
            thisLocal.None? ==> e == Emitted([], [], Err(NoThisLocal))
    ensures var e := OnCreateProbe(thisLocal, n);
            var name := Local(n + 1, STRING);
            var builder := Local(n + 3, BUILDER);
            var message := Local(n + 2, STRING);
            thisLocal.Some? ==>
              e.outcome.Ok? && |e.units| == 8 &&
              e.temps == [CLASS, STRING, STRING, BUILDER, BUILDER, PRINT_STREAM] &&
              e.units[..2] == ClassNameOf(thisLocal.value, n).units &&
              e.units[2] == AssignNew(builder, BUILDER_CLASS) &&
              e.units[3] == InvokeStmt(SpecialInvoke(builder, BUILDER_INIT, [StrConst(ACTIVITY_PREFIX)])) &&
              e.units[4] == AssignInvoke(Local(n + 4, BUILDER), VirtualInvoke(builder, BUILDER_APPEND, [LocalV(name)])) &&
              e.units[5] == AssignInvoke(message, VirtualInvoke(builder, BUILDER_TO_STRING, [])) &&
              e.units[6..] == Print(LocalV(message), n + 5).units
  {
    if thisLocal.Some? {
      var g := GetName(thisLocal, n);
      var a := Append(StrConst(ACTIVITY_PREFIX), LocalV(g.outcome.value), n + 2);
      var p := Print(LocalV(a.outcome.value), n + 5);
      assert OnCreateProbe(thisLocal, n) == Then(Then(g, a), p);
      assert (g.units + a.units + p.units)[6..] == p.units;
    }
  }

  /**
   * The generic probe: for a first parameter of type View, the view's id
   * by a virtual getId call; for a MenuItem, the item's id by an interface
   * getItemId call; either id is appended to "<CONTROL> Method: <sig> View: "
   * and printed, eight statements in all.  Any other method prints
   * "<METHOD> Method: <sig>" in two statements.  It never fails.
   */
  lemma GenericProbeShape(info: MethodInfo, params: seq<Local>, n: nat)
    requires |params| == |info.paramTypes|
    ensures var e := GenericProbe(info, params, n);
            var control := |info.paramTypes| >= 1 && (info.paramTypes[0] == VIEW || info.paramTypes[0] == MENU_ITEM);
            e.outcome.Ok? && |e.units| == (if control then 8 else 2)
    ensures var e := GenericProbe(info, params, n);
            var id := Local(n, INT);
            var builder := Local(n + 2, BUILDER);
            |info.paramTypes| >= 1 && (info.paramTypes[0] == VIEW || info.paramTypes[0] == MENU_ITEM) ==>
              e.units[0] == AssignInvoke(id, if info.paramTypes[0] == VIEW
                                             then VirtualInvoke(params[0], VIEW_GET_ID, [])
                                             else InterfaceInvoke(params[0], MENU_GET_ITEM_ID, [])) &&
              e.units[1] == AssignNew(builder, BUILDER_CLASS) &&
              e.units[2] == InvokeStmt(SpecialInvoke(builder, BUILDER_INIT, [StrConst(ControlMessage(info.signature))])) &&
              e.units[3] == AssignInvoke(Local(n + 3, STRING), StaticInvoke(ValueOf(IntKind), [LocalV(id)])) &&
              e.units[4] == AssignInvoke(Local(n + 4, BUILDER), VirtualInvoke(builder, BUILDER_APPEND, [LocalV(Local(n + 3, STRING))])) &&
              e.units[5] == AssignInvoke(Local(n + 1, STRING), VirtualInvoke(builder, BUILDER_TO_STRING, [])) &&
              e.units[6..] == Print(LocalV(Local(n + 1, STRING)), n + 5).units
    ensures var e := GenericProbe(info, params, n);
            !(|info.paramTypes| >= 1 && (info.paramTypes[0] == VIEW || info.paramTypes[0] == MENU_ITEM)) ==>
              e == Print(StrConst(MethodMessage(info.signature)), n)
  {
    GenericProbeCases(info, params, n);
    if |info.paramTypes| >= 1 && (info.paramTypes[0] == VIEW || info.paramTypes[0] == MENU_ITEM) {
      var id := if info.paramTypes[0] == VIEW then GetId(params[0], n) else GetItemId(params[0], n);
      var a := Append(StrConst(ControlMessage(info.signature)), LocalV(Local(n, INT)), n + 1);
      var p := Print(LocalV(Local(n + 1, STRING)), n + 5);
      ControlReportShape(info.signature, Local(n, INT), n + 1);
      assert GenericProbe(info, params, n) == Then(id, ControlReport(info.signature, Local(n, INT), n + 1));
      assert |id.units| == 1;
    }
  }

  /**
   * The control report is seven statements: the five of the concatenation of
   * the control message and the id, then the print of its result.
   */
  lemma ControlReportShape(signature: string, id: Local, n: nat)
    requires id.ty == INT
    ensures var e := ControlReport(signature, id, n);
            var builder := Local(n + 1, BUILDER);
            |e.units| == 7 && e.outcome.Ok? && |e.temps| == 5 &&
            e.units[0] == AssignNew(builder, BUILDER_CLASS) &&
            e.units[1] == InvokeStmt(SpecialInvoke(builder, BUILDER_INIT, [StrConst(ControlMessage(signature))])) &&
            e.units[2] == AssignInvoke(Local(n + 2, STRING), StaticInvoke(ValueOf(IntKind), [LocalV(id)])) &&
            e.units[3] == AssignInvoke(Local(n + 3, BUILDER), VirtualInvoke(builder, BUILDER_APPEND, [LocalV(Local(n + 2, STRING))])) &&
            e.units[4] == AssignInvoke(Local(n, STRING), VirtualInvoke(builder, BUILDER_TO_STRING, [])) &&
            e.units[5..] == Print(LocalV(Local(n, STRING)), n + 4).units
  {
    var a := Append(StrConst(ControlMessage(signature)), LocalV(id), n);
    AppendShape(StrConst(ControlMessage(signature)), LocalV(id), n);
    CoerceCases(LocalV(id), n + 2);
    assert (a.units + Print(LocalV(a.outcome.value), n + |a.temps|).units)[5..] == Print(LocalV(a.outcome.value), n + |a.temps|).units;
  }

  /** The three forms of the generic probe, each as a composition of its steps. */
  lemma GenericProbeCases(info: MethodInfo, params: seq<Local>, n: nat)
    requires |params| == |info.paramTypes|
    ensures |info.paramTypes| >= 1 && info.paramTypes[0] == VIEW ==>
              GenericProbe(info, params, n) == Then(GetId(params[0], n), ControlReport(info.signature, Local(n, INT), n + 1))
    ensures |info.paramTypes| >= 1 && info.paramTypes[0] == MENU_ITEM ==>
              GenericProbe(info, params, n) == Then(GetItemId(params[0], n), ControlReport(info.signature, Local(n, INT), n + 1))
    ensures !(|info.paramTypes| >= 1 && (info.paramTypes[0] == VIEW || info.paramTypes[0] == MENU_ITEM)) ==>
              GenericProbe(info, params, n) == Print(StrConst(MethodMessage(info.signature)), n)
  {
  }

  /** No statement of the list is a branch. */
  predicate Straight(units: seq<Stmt>)
  {
    forall i :: 0 <= i < |units| ==> !units[i].IfEqNull?
  }

  lemma StraightConcat(a: seq<Stmt>, b: seq<Stmt>)
    requires Straight(a) && Straight(b)
    ensures Straight(a + b)
  {
    forall i | 0 <= i < |a + b|
      ensures !(a + b)[i].IfEqNull?
    {
      if i >= |a| {
        assert (a + b)[i] == b[i - |a|];
      }
    }
  }

  /** Positions in a concatenation, counted from the start of its back part. */
  lemma ConcatAt<T>(a: seq<T>, b: seq<T>, k: nat)
    requires k <= |b|
    ensures |a + b| == |a| + |b|
    ensures k < |b| ==> (a + b)[|a| + k] == b[k]
    ensures (a + b)[|a| + k..] == b[k..]
    ensures (a + b)[..|a| + k] == a + b[..k]
  {
  }

  /** In a static method the fragment link fails after the builder's new and <init>. */
  lemma FragmentLinkStatic(h: Scene, fragment: string, n: nat)
    requires WellFormed(h) && fragment in h
    ensures var e := FragmentLink(h, fragment, None, n);
            e.outcome == Err(NoThisLocal) && e.temps == [STRING, BUILDER] &&
            e.units == StartBuilder(StrConst(FRAGMENT_PREFIX), n).units
  {
  }

  /** With a `this`, the link is its head followed by its rest. */
  lemma FragmentLinkSplit(h: Scene, fragment: string, self: Local, n: nat)
    requires WellFormed(h) && fragment in h
    ensures var e := FragmentLink(h, fragment, Some(self), n);
            var head := FragmentHead(self, n);
            var rest := FragmentRest(h, fragment, self, n);
            e.outcome.Ok? && e.units == head.units + rest.units && e.temps == head.temps + rest.temps &&
            |head.units| == 5 && head.temps == [STRING, BUILDER, CLASS, STRING, BUILDER] && Straight(head.units)
  {
    FragmentHeadForm(self, n);
  }

  /** The fragment link's head: five straight-line statements with five temporaries. */
  lemma FragmentHeadForm(self: Local, n: nat)
    ensures var head := FragmentHead(self, n);
            |head.units| == 5 && head.temps == [STRING, BUILDER, CLASS, STRING, BUILDER] && Straight(head.units)
    ensures FragmentHead(self, n).units ==
              [AssignNew(Local(n + 1, BUILDER), BUILDER_CLASS),
               InvokeStmt(SpecialInvoke(Local(n + 1, BUILDER), BUILDER_INIT, [StrConst(FRAGMENT_PREFIX)])),
               AssignInvoke(Local(n + 2, CLASS), VirtualInvoke(self, GET_CLASS, [])),
               AssignInvoke(Local(n + 3, STRING), VirtualInvoke(Local(n + 2, CLASS), GET_NAME, [])),
               AssignInvoke(Local(n + 4, BUILDER), VirtualInvoke(Local(n + 1, BUILDER), BUILDER_APPEND, [LocalV(Local(n + 3, STRING))]))]
  {
    AppendString(Local(n + 1, BUILDER), LocalV(Local(n + 3, STRING)), n + 4);
  }

  /** Without a getActivity ancestor the rest is the builder's toString and the print. */
  lemma FragmentRestPlain(h: Scene, fragment: string, self: Local, n: nat)
    requires WellFormed(h) && fragment in h
    requires FindGetActivity(h, fragment).None?
    ensures var r := FragmentRest(h, fragment, self, n);
            r.outcome.Ok? && r.temps == [PRINT_STREAM] && |r.units| == 3 &&
            r.units == [BuildString(Local(n + 1, BUILDER), Local(n, STRING))] + Print(LocalV(Local(n, STRING)), n + 5).units &&
            Straight(r.units)
  {
  }

  /** Where the statements of a fetch, a branch and a tail of seven land. */
  lemma GuardLayout(fetch: Stmt, branch: Stmt, tail: seq<Stmt>)
    requires !fetch.IfEqNull? && |tail| == 7 && Straight(tail)
    ensures var u := [fetch] + ([branch] + tail);
            |u| == 9 && u[0] == fetch && u[1] == branch && u[2..6] == tail[..4] && u[6] == tail[4] &&
            u[7..] == tail[5..] && Straight(u[..1]) && Straight(u[2..])
  {
    var u := [fetch] + ([branch] + tail);
    assert u[2..] == tail;
    assert u[..1] == [fetch];
  }

  /** Where the statements of a five-statement head and a guarded rest land. */
  lemma LinkLayout(head: seq<Stmt>, rest: seq<Stmt>)
    requires |head| == 5 && Straight(head) && |rest| == 9
    requires Straight(rest[..1]) && Straight(rest[2..])
    ensures var u := head + rest;
            |u| == 14 && u[5] == rest[0] && u[6] == rest[1] && u[11] == rest[6] && u[12..] == rest[7..] &&
            Straight(u[..6]) && Straight(u[7..])
  {
    var u := head + rest;
    assert u[..6] == head + rest[..1];
    assert u[7..] == rest[2..];
    assert u[12..] == rest[7..];
    StraightConcat(head, rest[..1]);
  }

  /**
   * With a getActivity ancestor the rest is nine statements: the fetch of
   * the activity into a temporary typed as that ancestor, the null test on
   * it jumping to the builder's toString, then the guarded tail (" Activity: "
   * and the activity's class name appended), the toString and the print.
   */
  lemma FragmentRestGuarded(h: Scene, fragment: string, self: Local, n: nat, found: Found)
    requires WellFormed(h) && fragment in h
    requires FindGetActivity(h, fragment) == Some(found)
    ensures var r := FragmentRest(h, fragment, self, n);
            var toString := BuildString(Local(n + 1, BUILDER), Local(n, STRING));
            var activity := Local(n + 5, Ref(found.cls));
            r.outcome.Ok? && |r.units| == 9 &&
            r.units[0] == AssignInvoke(activity, VirtualInvoke(self, MethodRef(found.cls, found.decl.subsignature), [])) &&
            r.units[1] == IfEqNull(activity, toString) && r.units[6] == toString &&
            r.units[7..] == Print(LocalV(Local(n, STRING)), n + 10).units &&
            Straight(r.units[..1]) && Straight(r.units[2..]) &&
            r.temps == [activity.ty] + ActivityName(Local(n + 1, BUILDER), activity, n + 6).temps + [PRINT_STREAM] &&
            |r.temps| == 6
    ensures FragmentRest(h, fragment, self, n).units[2..6] == ActivityName(Local(n + 1, BUILDER), Local(n + 5, Ref(found.cls)), n + 6).units
  {
    var toString := BuildString(Local(n + 1, BUILDER), Local(n, STRING));
    var activity := Local(n + 5, Ref(found.cls));
    var link := ActivityName(Local(n + 1, BUILDER), activity, n + 6);
    var p := Print(LocalV(Local(n, STRING)), n + 10);
    ActivityNameLayout(Local(n + 1, BUILDER), activity, n + 6);
    ConcatAt(link.units, [toString], 0);
    ConcatAt(link.units + [toString], p.units, 0);
    StraightConcat(link.units, [toString]);
    StraightConcat(link.units + [toString], p.units);
    var fetch := AssignInvoke(activity, VirtualInvoke(self, MethodRef(found.cls, found.decl.subsignature), []));
    assert (link.units + [toString] + p.units)[..4] == link.units;
    GuardLayout(fetch, IfEqNull(activity, toString), link.units + [toString] + p.units);
  }

  /**
   * With a `this`, the fragment link is eight statements without a
   * getActivity ancestor and fourteen with one; on both paths the
   * builder's toString into the String temporary reserved first and the
   * print of that string close the list.
   */
  lemma FragmentLinkShape(h: Scene, fragment: string, self: Local, n: nat)
    requires WellFormed(h) && fragment in h
    ensures var e := FragmentLink(h, fragment, Some(self), n);
            var found := FindGetActivity(h, fragment).Some?;
            var toString := AssignInvoke(Local(n, STRING), VirtualInvoke(Local(n + 1, BUILDER), BUILDER_TO_STRING, []));
            var m := |e.units|;
            e.outcome.Ok? &&
            m == (if found then 14 else 8) &&
            e.units[m - 3] == toString &&
            e.units[m - 2..] == Print(LocalV(Local(n, STRING)), if found then n + 10 else n + 5).units
  {
    FragmentLinkSplit(h, fragment, self, n);
    var head := FragmentHead(self, n);
    var rest := FragmentRest(h, fragment, self, n);
    match FindGetActivity(h, fragment)
    case None =>
      FragmentRestPlain(h, fragment, self, n);
      ConcatAt(head.units, rest.units, 0);
      ConcatAt(head.units, rest.units, 1);
    case Some(found) =>
      FragmentRestGuarded(h, fragment, self, n, found);
      LinkLayout(head.units, rest.units);
  }

  /**
   * The fragment link's only branch.  Without a getActivity ancestor there
   * is none.  With one, it sits at index 6, right after the assignment of
   * the activity temporary (typed as the ancestor) at index 5; it tests
   * that temporary and jumps to the builder's toString at index 11.  No
   * other statement is a branch.
   */
  lemma FragmentLinkBranch(h: Scene, fragment: string, self: Local, n: nat)
    requires WellFormed(h) && fragment in h
    ensures var e := FragmentLink(h, fragment, Some(self), n);
            FindGetActivity(h, fragment).None? ==> Straight(e.units)
    ensures var e := FragmentLink(h, fragment, Some(self), n);
            var found := FindGetActivity(h, fragment);
            found.Some? ==>
              var activity := Local(n + 5, Ref(found.value.cls));
              |e.units| == 14 &&
              e.units[5] == AssignInvoke(activity, VirtualInvoke(self, MethodRef(found.value.cls, found.value.decl.subsignature), [])) &&
              e.units[6] == IfEqNull(activity, e.units[11]) &&
              Straight(e.units[..6]) && Straight(e.units[7..])
  {
    FragmentLinkSplit(h, fragment, self, n);
    var head := FragmentHead(self, n);
    var rest := FragmentRest(h, fragment, self, n);
    match FindGetActivity(h, fragment)
    case None =>
      FragmentRestPlain(h, fragment, self, n);
      StraightConcat(head.units, rest.units);
    case Some(found) =>
      FragmentRestGuarded(h, fragment, self, n, found);
      LinkLayout(head.units, rest.units);
  }

  /** The guarded part's size and temporaries, for proofs that need no more. */
  lemma ActivityNameLayout(builder: Local, activity: Local, n: nat)
    ensures var l := ActivityName(builder, activity, n);
            |l.units| == 4 && l.temps == [BUILDER, CLASS, STRING, BUILDER] && Straight(l.units)
  {
    AppendString(builder, StrConst(ACTIVITY_SUFFIX), n);
    AppendString(builder, LocalV(Local(n + 2, STRING)), n + 3);
  }

  /**
   * The guarded part is four straight-line statements with four temporaries:
   * the " Activity: " append, getClass and getName of the activity, and the
   * append of that name.
   */
  lemma ActivityNameForm(builder: Local, activity: Local, n: nat)
    ensures var l := ActivityName(builder, activity, n);
            |l.units| == 4 && l.temps == [BUILDER, CLASS, STRING, BUILDER] && Straight(l.units)
    ensures ActivityName(builder, activity, n).units ==
              [AssignInvoke(Local(n, BUILDER), VirtualInvoke(builder, BUILDER_APPEND, [StrConst(ACTIVITY_SUFFIX)])),
               AssignInvoke(Local(n + 1, CLASS), VirtualInvoke(activity, GET_CLASS, [])),
               AssignInvoke(Local(n + 2, STRING), VirtualInvoke(Local(n + 1, CLASS), GET_NAME, [])),
               AssignInvoke(Local(n + 3, BUILDER), VirtualInvoke(builder, BUILDER_APPEND, [LocalV(Local(n + 2, STRING))]))]
  {
    AppendString(builder, StrConst(ACTIVITY_SUFFIX), n);
    AppendString(builder, LocalV(Local(n + 2, STRING)), n + 3);
  }

  /**
   * For onCreate the eight-statement lifecycle preface comes first and the
   * generic probe closes the list; in a static onCreate nothing is emitted.
   */
  lemma InstrumentOnCreate(h: Scene, info: MethodInfo, thisLocal: Option<Local>, params: seq<Local>, n: nat)
    requires WellFormed(h) && FullName(info.declaringClass) in h
    requires |params| == |info.paramTypes|
    requires info.name == "onCreate"
    ensures var e := InstrumentUnits(h, info, thisLocal, params, n);
            thisLocal.None? ==> e == Emitted([], [], Err(NoThisLocal))
    ensures var e := InstrumentUnits(h, info, thisLocal, params, n);
            var pre := OnCreateProbe(thisLocal, n);
            var g := GenericProbe(info, params, n + |pre.temps|);
            thisLocal.Some? ==>
              e.outcome.Ok? && |pre.units| == 8 &&
              e.units == pre.units + g.units && e.temps == pre.temps + g.temps
  {
    if thisLocal.Some? {
      OnCreateProbeLength(thisLocal.value, n);
    }
  }

  /**
   * For onCreateView the fragment link comes first and the generic probe
   * closes the list; in a static onCreateView the builder's new and <init>
   * are all that is emitted.
   */
  lemma InstrumentOnCreateView(h: Scene, info: MethodInfo, thisLocal: Option<Local>, params: seq<Local>, n: nat)
    requires WellFormed(h) && FullName(info.declaringClass) in h
    requires |params| == |info.paramTypes|
    requires info.name == "onCreateView"
    ensures var e := InstrumentUnits(h, info, thisLocal, params, n);
            var pre := FragmentLink(h, FullName(info.declaringClass), thisLocal, n);
            var g := GenericProbe(info, params, n + |pre.temps|);
            (thisLocal.None? ==> e == pre && e.outcome.Err? && |e.units| == 2) &&
            (thisLocal.Some? ==> e.outcome.Ok? && e.units == pre.units + g.units && e.temps == pre.temps + g.temps)
  {
    assert |info.name| != |"onCreate"|;
    var pre := FragmentLink(h, FullName(info.declaringClass), thisLocal, n);
    assert Preface(h, info, thisLocal, n) == pre;
    if thisLocal.None? {
      FragmentLinkStatic(h, FullName(info.declaringClass), n);
    }
  }

  /** Emitting nothing first changes nothing. */
  lemma ThenNothing<T>(g: Emitted<T>)
    ensures Then(Nothing(), g) == g
  {
    assert [] + g.units == g.units && [] + g.temps == g.temps;
  }

  /** Any other method gets the generic probe alone. */
  lemma InstrumentOther(h: Scene, info: MethodInfo, thisLocal: Option<Local>, params: seq<Local>, n: nat)
    requires WellFormed(h) && FullName(info.declaringClass) in h
    requires |params| == |info.paramTypes|
    requires info.name != "onCreate" && info.name != "onCreateView"
    ensures InstrumentUnits(h, info, thisLocal, params, n) == GenericProbe(info, params, n)
  {
    var pre := Preface(h, info, thisLocal, n);
    assert pre == Nothing();
    ThenNothing(GenericProbe(info, params, n));
  }

  lemma OnCreateProbeLength(self: Local, n: nat)
    ensures |OnCreateProbe(Some(self), n).units| == 8
  {
    OnCreateProbeShape(Some(self), n);
  }
}
