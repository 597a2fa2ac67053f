/**
 * The per-method probe builder.  It holds the body being instrumented, the
 * loaded class hierarchy and the list of statements built so far; every
 * step appends to that list and allocates its temporaries in the body.
 * Each step is proved to emit exactly what its function in Synthesis
 * describes, with `n` the body's local count before the step: the list
 * gains that function's statements, the body that function's temporaries,
 * and the step returns that function's outcome.
 */
module Generator {
  import opened Jimple
  import opened Hierarchy
  import opened Bodies
  import opened Synthesis

  lemma Assoc3<T>(a: seq<T>, b: seq<T>, c: seq<T>)
    ensures a + b + c == a + (b + c)
  {
  }

  lemma Assoc4<T>(a: seq<T>, b: seq<T>, c: seq<T>, d: seq<T>)
    ensures a + b + c + d == a + (b + c + d)
  {
  }

  /**
   * Inserting `br` at the index that follows `f` in `a + [f] + t`: what
   * comes out is `a + ([f] + ([br] + t))`.
   */
  lemma InsertAfter<T>(a: seq<T>, f: T, t: seq<T>, br: T)
    ensures var u := a + [f] + t;
            var k := |a| + 1;
            k <= |u| && u[..k] + [br] + u[k..] == a + ([f] + ([br] + t))
  {
    var u := a + [f] + t;
    var k := |a| + 1;
    assert u[..k] == a + [f];
    assert u[k..] == t;
  }

  class JimpleGenerator {
    const body: Body
    const scene: Scene
    var units: seq<Stmt>

    /** The body is shaped and its declaring class is loaded in an acyclic hierarchy. */
    ghost predicate Valid()
    {
      body.Shaped() && WellFormed(scene) && FullName(body.info.declaringClass) in scene
    }

    constructor (body: Body, scene: Scene)
      requires body.Shaped()
      requires WellFormed(scene) && FullName(body.info.declaringClass) in scene
      ensures this.body == body && this.scene == scene && units == []
      ensures Valid()
    {
      this.body := body;
      this.scene := scene;
      this.units := [];
    }

    /** The statements built so far, first to last. */
    method GetUnits() returns (r: seq<Stmt>)
      ensures r == units
    {
      r := units;
    }

    /** A fresh temporary: the body's next id, declared with type `t`. */
    method GenerateNewLocal(t: Type) returns (l: Local)
      requires Valid()
      modifies body
      ensures l == Local(|old(body.locals)|, t)
      ensures body.locals == old(body.locals) + [t]
    {
      l := body.NewLocal(t);
    }

    /** String coercion, as Coerce describes; an unsupported operand emits nothing. */
    method GenerateToString(v: Value) returns (r: Result<Value, Error>)
      requires Valid()
      modifies this, body
      ensures var e := Coerce(v, old(|body.locals|));
              units == old(units) + e.units && body.locals == old(body.locals) + e.temps && r == e.outcome
    {
      var t := TypeOf(v);
      if t == STRING {
        r := Ok(v);
      } else if t.Prim? {
        var tmp := GenerateNewLocal(STRING);
        units := units + [AssignInvoke(tmp, StaticInvoke(ValueOf(t.kind), [v]))];
        r := Ok(LocalV(tmp));
      } else if v.LocalV? {
        var tmp := GenerateNewLocal(STRING);
        units := units + [AssignInvoke(tmp, VirtualInvoke(v.local, OBJECT_TO_STRING, []))];
        r := Ok(LocalV(tmp));
      } else {
        r := Err(UnsupportedOperand(v));
      }
    }

    /** Print, as Print describes: System.out into a fresh PrintStream, then println. */
    method GeneratePrint(msg: Value)
      requires Valid()
      modifies this, body
      ensures var e := Print(msg, old(|body.locals|));
              units == old(units) + e.units && body.locals == old(body.locals) + e.temps
    {
      var out := GenerateNewLocal(PRINT_STREAM);
      units := units + [AssignField(out, SYSTEM_OUT)];
      units := units + [InvokeStmt(VirtualInvoke(out, PRINTLN, [msg]))];
    }

    /** The first parameter's View id, as GetId describes. */
    method GenerateGetId() returns (r: Local)
      requires Valid() && |body.paramLocals| >= 1
      modifies this, body
      ensures var e := GetId(body.paramLocals[0], old(|body.locals|));
              units == old(units) + e.units && body.locals == old(body.locals) + e.temps && Ok(r) == e.outcome
    {
      var param := body.paramLocals[0];
      r := GenerateNewLocal(INT);
      units := units + [AssignInvoke(r, VirtualInvoke(param, VIEW_GET_ID, []))];
    }

    /** The first parameter's MenuItem id, as GetItemId describes. */
    method GenerateGetItemId() returns (r: Local)
      requires Valid() && |body.paramLocals| >= 1
      modifies this, body
      ensures var e := GetItemId(body.paramLocals[0], old(|body.locals|));
              units == old(units) + e.units && body.locals == old(body.locals) + e.temps && Ok(r) == e.outcome
    {
      var param := body.paramLocals[0];
      r := GenerateNewLocal(INT);
      units := units + [AssignInvoke(r, InterfaceInvoke(param, MENU_GET_ITEM_ID, []))];
    }

    /**
     * A StringBuilder seeded with `init`, as StartBuilder describes: the
     * String temporary for the built string is reserved first, then the
     * builder is created and initialised.
     */
    method GenerateBuilderStart(init: Value) returns (builder: Local)
      requires Valid()
      modifies this, body
      ensures var e := StartBuilder(init, old(|body.locals|));
              units == old(units) + e.units && body.locals == old(body.locals) + e.temps && Ok(builder) == e.outcome
    {
      var appended := GenerateNewLocal(STRING);
      builder := GenerateNewLocal(BUILDER);
      units := units + [AssignNew(builder, BUILDER_CLASS), InvokeStmt(SpecialInvoke(builder, BUILDER_INIT, [init]))];
    }

    /** One append to `builder`, as AppendStep describes: the coercion of `v`, then the append. */
    method GenerateBuilderAppend(builder: Local, v: Value) returns (r: Result<(), Error>)
      requires Valid()
      modifies this, body
      ensures var e := AppendStep(builder, v, old(|body.locals|));
              units == old(units) + e.units && body.locals == old(body.locals) + e.temps && r == e.outcome
    {
      ghost var n := |body.locals|;
      ghost var units0, locals0 := units, body.locals;
      var s := GenerateToString(v);
      if s.Err? {
        r := Err(s.error);
        return;
      }
      ghost var c := Coerce(v, n);
      var tmp := GenerateNewLocal(BUILDER);
      var append := AssignInvoke(tmp, VirtualInvoke(builder, BUILDER_APPEND, [s.value]));
      units := units + [append];
      Assoc3(units0, c.units, [append]);
      Assoc3(locals0, c.temps, [BUILDER]);
      r := Ok(());
    }

    /**
     * StringBuilder concatenation, as Append describes: new, <init>(v1),
     * the coercion of v2, append, toString into the String temporary
     * reserved first.
     */
    method GenerateAppend(v1: Value, v2: Value) returns (r: Result<Local, Error>)
      requires Valid()
      modifies this, body
      ensures var e := Append(v1, v2, old(|body.locals|));
              units == old(units) + e.units && body.locals == old(body.locals) + e.temps && r == e.outcome
    {
      var n := |body.locals|;
      ghost var units0, locals0 := units, body.locals;
      var builder := GenerateBuilderStart(v1);
      ghost var start := StartBuilder(v1, n);
      var step := GenerateBuilderAppend(builder, v2);
      ghost var a := AppendStep(builder, v2, n + 2);
      Assoc3(units0, start.units, a.units);
      Assoc3(locals0, start.temps, a.temps);
      if step.Err? {
        r := Err(step.error);
        return;
      }
      var appended := Local(n, STRING);
      units := units + [BuildString(builder, appended)];
      r := Ok(appended);
    }

    /** The runtime class name of `obj`, as ClassNameOf describes. */
    method GenerateClassName(obj: Local) returns (r: Local)
      requires Valid()
      modifies this, body
      ensures var e := ClassNameOf(obj, old(|body.locals|));
              units == old(units) + e.units && body.locals == old(body.locals) + e.temps && Ok(r) == e.outcome
    {
      var classLocal := GenerateNewLocal(CLASS);
      units := units + [AssignInvoke(classLocal, VirtualInvoke(obj, GET_CLASS, []))];
      r := GenerateNewLocal(STRING);
      units := units + [AssignInvoke(r, VirtualInvoke(classLocal, GET_NAME, []))];
    }

    /** The runtime class name of `this`, as GetName describes; a static method has none. */
    method GenerateGetName() returns (r: Result<Local, Error>)
      requires Valid()
      modifies this, body
      ensures var e := GetName(body.thisLocal, old(|body.locals|));
              units == old(units) + e.units && body.locals == old(body.locals) + e.temps && r == e.outcome
    {
      if body.thisLocal.None? {
        r := Err(NoThisLocal);
        assert units == units + [] && body.locals == body.locals + [];
        return;
      }
      var name := GenerateClassName(body.thisLocal.value);
      r := Ok(name);
    }

    /** The lifecycle preface of onCreate, as OnCreateProbe describes. */
    method GenerateActivityProbe() returns (r: Result<(), Error>)
      requires Valid()
      modifies this, body
      ensures var e := OnCreateProbe(body.thisLocal, old(|body.locals|));
              units == old(units) + e.units && body.locals == old(body.locals) + e.temps && r == e.outcome
    {
      var n := |body.locals|;
      ghost var units0, locals0 := units, body.locals;
      var name := GenerateGetName();
      if name.Err? {
        r := Err(name.error);
        return;
      }
      ghost var g := GetName(body.thisLocal, n);
      var message := GenerateAppend(StrConst(ACTIVITY_PREFIX), LocalV(name.value));
      ghost var a := Append(StrConst(ACTIVITY_PREFIX), LocalV(name.value), n + 2);
      assert message.Ok?;
      GeneratePrint(LocalV(message.value));
      ghost var p := Print(LocalV(message.value), n + 2 + |a.temps|);
      Assoc4(units0, g.units, a.units, p.units);
      Assoc4(locals0, g.temps, a.temps, p.temps);
      r := Ok(());
    }

    /** " Activity: " and the activity's runtime class name appended, as ActivityName describes. */
    method GenerateActivityName(builder: Local, activity: Local)
      requires Valid()
      modifies this, body
      ensures var e := ActivityName(builder, activity, old(|body.locals|));
              units == old(units) + e.units && body.locals == old(body.locals) + e.temps
    {
      ghost var n := |body.locals|;
      ghost var units0, locals0 := units, body.locals;
      AppendString(builder, StrConst(ACTIVITY_SUFFIX), n);
      ghost var a := AppendStep(builder, StrConst(ACTIVITY_SUFFIX), n);
      var suffix := GenerateBuilderAppend(builder, StrConst(ACTIVITY_SUFFIX));
      var name := GenerateClassName(activity);
      ghost var cn := ClassNameOf(activity, n + 1);
      var step := GenerateBuilderAppend(builder, LocalV(name));
      ghost var b := AppendStep(builder, LocalV(name), n + 3);
      Assoc4(units0, a.units, cn.units, b.units);
      Assoc4(locals0, a.temps, cn.temps, b.temps);
    }

    /**
     * The walk up the fragment's superclass chain: from its direct
     * superclass, while the current class has a superclass, its methods
     * are scanned in order for the first one named getActivity.  It finds
     * exactly what FindGetActivity describes.
     */
    method FindGetActivityMethod() returns (r: Option<Found>)
      requires WellFormed(scene) && FullName(body.info.declaringClass) in scene
      ensures r == FindGetActivity(scene, FullName(body.info.declaringClass))
    {
      var fragment := FullName(body.info.declaringClass);
      if scene[fragment].superName.None? {
        return None;
      }
      RankStep(scene, fragment);
      var superClass := scene[fragment].superName.value;
      while scene[superClass].superName.Some?
        invariant superClass in scene
        invariant FindGetActivity(scene, fragment) == SearchFrom(scene, superClass)
        decreases Rank(scene, superClass)
      {
        var methods := scene[superClass].methods;
        var first := ScanForGetActivity(methods);
        if first.Some? {
          return Some(Found(superClass, methods[first.value]));
        }
        RankStep(scene, superClass);
        superClass := scene[superClass].superName.value;
      }
      return None;
    }

    /** The scan of one class's methods, in declaration order, for the first named getActivity. */
    method ScanForGetActivity(methods: seq<MethodDecl>) returns (r: Option<nat>)
      ensures r == FirstNamed(methods, GET_ACTIVITY)
    {
      var i := 0;
      while i < |methods|
        invariant 0 <= i <= |methods|
        invariant forall j :: 0 <= j < i ==> methods[j].name != GET_ACTIVITY
      {
        if methods[i].name == GET_ACTIVITY {
          return Some(i);
        }
        i := i + 1;
      }
      return None;
    }

    /** Puts `s` at position k of the list, shifting the rest right, as `units.add(k, s)` does. */
    method InsertAt(k: nat, s: Stmt)
      requires k <= |units|
      modifies this
      ensures units == old(units)[..k] + [s] + old(units)[k..]
    {
      units := units[..k] + [s] + units[k..];
    }

    /**
     * The link when `found` names the getActivity ancestor: the activity
     * fetched into a temporary typed as that ancestor, " Activity: " and
     * its class name appended, the builder's toString and the print, and
     * last the null test inserted right after the fetch, jumping to the
     * toString.
     */
    method GenerateGuardedLink(self: Local, found: Found, n: nat)
      requires Valid() && |body.locals| == n + 5
      modifies this, body
      ensures var activity := Local(n + 5, Ref(found.cls));
              var link := ActivityName(Local(n + 1, BUILDER), activity, n + 6);
              var toString := BuildString(Local(n + 1, BUILDER), Local(n, STRING));
              var fetch := AssignInvoke(activity, VirtualInvoke(self, MethodRef(found.cls, found.decl.subsignature), []));
              var p := Print(LocalV(Local(n, STRING)), n + 10);
              units == old(units) + ([fetch] + ([IfEqNull(activity, toString)] + (link.units + [toString] + p.units))) &&
              body.locals == old(body.locals) + ([activity.ty] + link.temps + p.temps)
    {
      ghost var units0, locals0 := units, body.locals;
      var activity := GenerateNewLocal(Ref(found.cls));
      var fetch := AssignInvoke(activity, VirtualInvoke(self, MethodRef(found.cls, found.decl.subsignature), []));
      units := units + [fetch];
      var ifIndex := |units|;
      GenerateActivityReport(activity, n);
      ghost var link := ActivityName(Local(n + 1, BUILDER), activity, n + 6);
      ghost var toString := BuildString(Local(n + 1, BUILDER), Local(n, STRING));
      ghost var p := Print(LocalV(Local(n, STRING)), n + 10);
      InsertAfter(units0, fetch, link.units + [toString] + p.units, IfEqNull(activity, BuildString(Local(n + 1, BUILDER), Local(n, STRING))));
      InsertAt(ifIndex, IfEqNull(activity, BuildString(Local(n + 1, BUILDER), Local(n, STRING))));
      Assoc4(locals0, [activity.ty], link.temps, p.temps);
    }

    /**
     * What follows the fetch of the activity: " Activity: " and its class
     * name appended to the builder, the builder's toString into the
     * String temporary `n`, and the print of it.
     */
    method GenerateActivityReport(activity: Local, n: nat)
      requires Valid() && |body.locals| == n + 6
      modifies this, body
      ensures var link := ActivityName(Local(n + 1, BUILDER), activity, n + 6);
              var p := Print(LocalV(Local(n, STRING)), n + 10);
              units == old(units) + (link.units + [BuildString(Local(n + 1, BUILDER), Local(n, STRING))] + p.units) &&
              body.locals == old(body.locals) + link.temps + p.temps
    {
      ghost var units0 := units;
      var builder := Local(n + 1, BUILDER);
      var appended := Local(n, STRING);
      GenerateActivityName(builder, activity);
      ghost var link := ActivityName(builder, activity, n + 6);
      ActivityNameLayout(builder, activity, n + 6);
      var toString := BuildString(builder, appended);
      units := units + [toString];
      GeneratePrint(LocalV(appended));
      Assoc4(units0, link.units, [toString], Print(LocalV(appended), n + 10).units);
    }

    /**
     * The fragment link after its head, as FragmentRest describes: `n` is
     * the id of the String temporary the head reserved, `n + 1` the
     * builder's.
     */
    method GenerateFragmentRest(self: Local, n: nat)
      requires Valid() && |body.locals| == n + 5
      modifies this, body
      ensures var e := FragmentRest(scene, FullName(body.info.declaringClass), self, n);
              units == old(units) + e.units && body.locals == old(body.locals) + e.temps
    {
      var found := FindGetActivityMethod();
      if found.None? {
        ghost var units0 := units;
        var toString := BuildString(Local(n + 1, BUILDER), Local(n, STRING));
        units := units + [toString];
        GeneratePrint(LocalV(Local(n, STRING)));
        Assoc3(units0, [toString], Print(LocalV(Local(n, STRING)), n + 5).units);
      } else {
        GenerateGuardedLink(self, found.value, n);
      }
    }

    /** The whole fragment link, as FragmentLink describes. */
    method GenerateFragmentLink() returns (r: Result<(), Error>)
      requires Valid()
      modifies this, body
      ensures var e := FragmentLink(scene, FullName(body.info.declaringClass), body.thisLocal, old(|body.locals|));
              units == old(units) + e.units && body.locals == old(body.locals) + e.temps && r == e.outcome
    {
      var n := |body.locals|;
      ghost var units0, locals0 := units, body.locals;
      var builder := GenerateBuilderStart(StrConst(FRAGMENT_PREFIX));
      ghost var start := StartBuilder(StrConst(FRAGMENT_PREFIX), n);
      var name := GenerateGetName();
      if name.Err? {
        FragmentLinkStatic(scene, FullName(body.info.declaringClass), n);
        r := Err(name.error);
        return;
      }
      var self := body.thisLocal.value;
      FragmentLinkSplit(scene, FullName(body.info.declaringClass), self, n);
      ghost var cn := ClassNameOf(self, n + 2);
      var step := GenerateBuilderAppend(builder, LocalV(name.value));
      ghost var a := AppendStep(builder, LocalV(name.value), n + 4);
      ghost var head := FragmentHead(self, n);
      Assoc4(units0, start.units, cn.units, a.units);
      Assoc4(locals0, start.temps, cn.temps, a.temps);
      GenerateFragmentRest(self, n);
      ghost var rest := FragmentRest(scene, FullName(body.info.declaringClass), self, n);
      Assoc3(units0, head.units, rest.units);
      Assoc3(locals0, head.temps, rest.temps);
      r := Ok(());
    }

    /** The control report, as ControlReport describes: the id appended to the control message, printed. */
    method GenerateControlReport(signature: string, id: Local)
      requires Valid()
      modifies this, body
      ensures var e := ControlReport(signature, id, old(|body.locals|));
              units == old(units) + e.units && body.locals == old(body.locals) + e.temps
    {
      var n := |body.locals|;
      ghost var units0, locals0 := units, body.locals;
      var message := GenerateAppend(StrConst(ControlMessage(signature)), LocalV(id));
      ghost var a := Append(StrConst(ControlMessage(signature)), LocalV(id), n);
      assert message.Ok?;
      GeneratePrint(LocalV(message.value));
      ghost var p := Print(LocalV(message.value), n + |a.temps|);
      Assoc3(units0, a.units, p.units);
      Assoc3(locals0, a.temps, p.temps);
    }

    /**
     * The probe every method gets, as GenericProbe describes: the id of a
     * View or MenuItem first parameter reported with the control message,
     * otherwise the method message printed.
     */
    method GenerateGenericProbe()
      requires Valid()
      modifies this, body
      ensures var e := GenericProbe(body.info, body.paramLocals, old(|body.locals|));
              units == old(units) + e.units && body.locals == old(body.locals) + e.temps
    {
      var n := |body.locals|;
      ghost var units0, locals0 := units, body.locals;
      var info := body.info;
      GenericProbeCases(info, body.paramLocals, n);
      if |info.paramTypes| >= 1 && info.paramTypes[0] == VIEW {
        var id := GenerateGetId();
        ghost var units1 := units;
        GenerateControlReport(info.signature, id);
        Assoc3(units0, units1[|units0|..], units[|units1|..]);
        Assoc3(locals0, [INT], body.locals[n + 1..]);
      } else if |info.paramTypes| >= 1 && info.paramTypes[0] == MENU_ITEM {
        var id := GenerateGetItemId();
        ghost var units1 := units;
        GenerateControlReport(info.signature, id);
        Assoc3(units0, units1[|units0|..], units[|units1|..]);
        Assoc3(locals0, [INT], body.locals[n + 1..]);
      } else {
        GeneratePrint(StrConst(MethodMessage(info.signature)));
      }
    }

    /**
     * The name-selected preface, as Preface describes: the lifecycle
     * preface when the method is named onCreate, the fragment link when it
     * is named onCreateView; the two tests are made one after the other.
     */
    method GeneratePreface() returns (r: Result<(), Error>)
      requires Valid()
      modifies this, body
      ensures var e := Preface(scene, body.info, body.thisLocal, old(|body.locals|));
              units == old(units) + e.units && body.locals == old(body.locals) + e.temps && r == e.outcome
    {
      r := Ok(());
      if body.info.name == "onCreate" {
        r := GenerateActivityProbe();
        if r.Err? {
          return;
        }
      }
      if body.info.name == "onCreateView" {
        assert |body.info.name| != |"onCreate"|;
        r := GenerateFragmentLink();
        return;
      }
      if body.info.name != "onCreate" {
        assert units == old(units) + [] && body.locals == old(body.locals) + [];
      }
    }

    /**
     * Everything emitted for the method: the preface, then, unless the
     * preface failed, the generic probe; InstrumentUnitsSplit shows this is
     * exactly what InstrumentUnits describes.
     */
    method GenerateInstrumentUnits() returns (r: Result<(), Error>)
      requires Valid()
      modifies this, body
      ensures var pre := Preface(scene, body.info, body.thisLocal, old(|body.locals|));
              pre.outcome.Err? ==>
                units == old(units) + pre.units && body.locals == old(body.locals) + pre.temps && r == pre.outcome
      ensures var pre := Preface(scene, body.info, body.thisLocal, old(|body.locals|));
              var g := GenericProbe(body.info, body.paramLocals, old(|body.locals|) + |pre.temps|);
              pre.outcome.Ok? ==>
                units == old(units) + pre.units + g.units && body.locals == old(body.locals) + pre.temps + g.temps &&
                r == g.outcome
    {
      ghost var pre := Preface(scene, body.info, body.thisLocal, |body.locals|);
      r := GeneratePreface();
      if r.Err? {
        return;
      }
      assert pre.outcome.Ok?;
      GenerateGenericProbe();
      r := Ok(());
    }
  }
}
