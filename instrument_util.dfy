/**
 * The logging helpers: the platform-method test, string coercion into a
 * caller-supplied list of generated statements, two-operand concatenation
 * and the `Log.i` coverage statements.  What each helper emits is given by
 * a function of the first fresh local id `n`; the helper methods are
 * proved to emit exactly that.
 */
module InstrumentUtil {
  import opened Jimple
  import opened Strings
  import opened Bodies
  import opened Synthesis

  /** The tag of every coverage log line. */
  const C_TAG: string := "<COVERAGE_TEST>"

  /** The package prefixes of the platform and its support libraries. */
  const ANDROID_PREFIXES: seq<string> := ["android.", "com.google.android", "androidx."]

  /**
   * `prefixes.stream().map(s::startsWith).reduce(acc, ||)`: a left fold of
   * the prefix tests with `||`.
   */
  function AnyStartsWith(acc: bool, s: string, prefixes: seq<string>): (r: bool)
    ensures acc ==> r
    ensures (forall i :: 0 <= i < |prefixes| ==> !StartsWith(s, prefixes[i])) ==> r == acc
    decreases |prefixes|
  {
    if |prefixes| == 0 then acc
    else AnyStartsWith(acc || StartsWith(s, prefixes[0]), s, prefixes[1..])
  }

  /** The fold holds exactly when its seed holds or some prefix matches. */
  lemma {:induction false} AnyStartsWithIff(acc: bool, s: string, prefixes: seq<string>)
    ensures AnyStartsWith(acc, s, prefixes) <==>
              acc || exists i :: 0 <= i < |prefixes| && StartsWith(s, prefixes[i])
    decreases |prefixes|
  {
    if |prefixes| > 0 {
      AnyStartsWithIff(acc || StartsWith(s, prefixes[0]), s, prefixes[1..]);
      if exists i :: 0 <= i < |prefixes| && StartsWith(s, prefixes[i]) {
        var i :| 0 <= i < |prefixes| && StartsWith(s, prefixes[i]);
        if i > 0 {
          assert prefixes[1..][i - 1] == prefixes[i];
        }
      }
      if exists i :: 0 <= i < |prefixes[1..]| && StartsWith(s, prefixes[1..][i]) {
        var i :| 0 <= i < |prefixes[1..]| && StartsWith(s, prefixes[1..][i]);
        assert prefixes[i + 1] == prefixes[1..][i];
      }
    }
  }

  /**
   * Whether a method is declared by a platform or support-library class:
   * exactly when its declaring class's full name starts with "android.",
   * "com.google.android" or "androidx.".
   */
  function IsAndroidMethod(m: MethodInfo): (r: bool)
    ensures var name := FullName(m.declaringClass);
            r <==> StartsWith(name, "android.") || StartsWith(name, "com.google.android") || StartsWith(name, "androidx.")
  {
    var name := FullName(m.declaringClass);
    AnyStartsWithIff(false, name, ANDROID_PREFIXES);
    assert StartsWith(name, "android.") ==> StartsWith(name, ANDROID_PREFIXES[0]);
    assert StartsWith(name, "com.google.android") ==> StartsWith(name, ANDROID_PREFIXES[1]);
    assert StartsWith(name, "androidx.") ==> StartsWith(name, ANDROID_PREFIXES[2]);
    AnyStartsWith(false, name, ANDROID_PREFIXES)
  }

  /** An app class is not a platform class. */
  lemma AppMethodExample(m: MethodInfo)
    requires m.declaringClass == ClassId("com.example", "test")
    ensures !IsAndroidMethod(m)
  {
    var name := FullName(m.declaringClass);
    assert name == "com.example.test";
    assert name[0] != "android."[0];
    assert name[1] != "androidx."[1];
    assert name[4] != "com.google.android"[4];
  }

  /** A support-library class is a platform class. */
  lemma SupportMethodExample(m: MethodInfo)
    requires m.declaringClass == ClassId("androidx.fragment.app", "Fragment")
    ensures IsAndroidMethod(m)
  {
    assert FullName(m.declaringClass)[..9] == "androidx.";
  }

  /** The static `Log.i(C_TAG, message)` call statement. */
  function LogCall(message: Value): Stmt
  {
    InvokeStmt(StaticInvoke(LOG_I, [StrConst(C_TAG), message]))
  }

  /**
   * Two-operand concatenation as the logging helper emits it.  Locals are
   * allocated builder (n), then, once `new` is emitted, tmp (n + 1) and
   * result (n + 2); the coercion of s2 comes next (its temporary, if any,
   * is n + 3), then <init>(s1), append and toString.  When s2 cannot be
   * coerced, `new` and the three locals are already there.
   */
  function AppendTwo(s1: Value, s2: Value, n: nat): (e: Emitted<Local>)
    ensures e.outcome.Ok? <==> Coercible(s2)
  {
    var builder := Local(n, BUILDER);
    var tmp := Local(n + 1, BUILDER);
    var result := Local(n + 2, STRING);
    var c := Coerce(s2, n + 3);
    match c.outcome
    case Err(err) => Emitted([AssignNew(builder, BUILDER_CLASS)] + c.units, [BUILDER, BUILDER, STRING] + c.temps, Err(err))
    case Ok(arg) =>
      Emitted([AssignNew(builder, BUILDER_CLASS)] + c.units +
                [InvokeStmt(SpecialInvoke(builder, BUILDER_INIT, [s1])),
                 AssignInvoke(tmp, VirtualInvoke(builder, BUILDER_APPEND, [arg])),
                 AssignInvoke(result, VirtualInvoke(builder, BUILDER_TO_STRING, []))],
              [BUILDER, BUILDER, STRING] + c.temps, Ok(result))
  }

  /**
   * Concatenation is four statements when s2 is a string and five
   * otherwise, in the order new, the coercion of s2, <init>(s1), append,
   * toString; the result is the toString target.  An uncoercible s2
   * leaves just `new` emitted and the three locals allocated.
   */
  lemma AppendTwoShape(s1: Value, s2: Value, n: nat)
    ensures var e := AppendTwo(s1, s2, n);
            Coercible(s2) ==> |e.units| == if TypeOf(s2) == STRING then 4 else 5
    ensures var e := AppendTwo(s1, s2, n);
            |e.units| >= 1 && e.units[0] == AssignNew(Local(n, BUILDER), BUILDER_CLASS)
    ensures var e := AppendTwo(s1, s2, n);
            Coercible(s2) && TypeOf(s2) != STRING ==>
              e.units[1] == Coerce(s2, n + 3).units[0] && Def(e.units[1]) == Some(Local(n + 3, STRING))
    ensures var e := AppendTwo(s1, s2, n);
            Coercible(s2) ==>
              var m := |e.units|;
              var builder := Local(n, BUILDER);
              e.units[m - 3] == InvokeStmt(SpecialInvoke(builder, BUILDER_INIT, [s1])) &&
              e.units[m - 2] == AssignInvoke(Local(n + 1, BUILDER), VirtualInvoke(builder, BUILDER_APPEND, [Coerce(s2, n + 3).outcome.value])) &&
              e.units[m - 1] == AssignInvoke(e.outcome.value, VirtualInvoke(builder, BUILDER_TO_STRING, [])) &&
              e.outcome.value == Local(n + 2, STRING)
    ensures var e := AppendTwo(s1, s2, n);
            !Coercible(s2) ==>
              e.units == [AssignNew(Local(n, BUILDER), BUILDER_CLASS)] &&
              e.temps == [BUILDER, BUILDER, STRING] &&
              e.outcome == Err(UnsupportedOperand(s2))
  {
    CoerceCases(s2, n + 3);
  }

  /** The locals a run of statements assigns, in order. */
  function Assigned(units: seq<Stmt>): seq<Local>
  {
    if |units| == 0 then []
    else (if Def(units[0]).Some? then [Def(units[0]).value] else []) + Assigned(units[1..])
  }

  /**
   * The statements of a successful concatenation assign builder (n), the
   * coercion's temporary (n + 3, when s2 is not a string), tmp (n + 1) and
   * result (n + 2), each exactly once: three distinct fresh locals, plus
   * the coercion's, each declared with the type it is assigned at.
   */
  lemma AppendTwoFresh(s1: Value, s2: Value, n: nat)
    requires Coercible(s2)
    ensures var e := AppendTwo(s1, s2, n);
            Assigned(e.units) ==
              [Local(n, BUILDER)] + (if TypeOf(s2) == STRING then [] else [Local(n + 3, STRING)]) +
              [Local(n + 1, BUILDER), Local(n + 2, STRING)]
  {
    CoerceCases(s2, n + 3);
    var e := AppendTwo(s1, s2, n);
    var builder := Local(n, BUILDER);
    var tail := [InvokeStmt(SpecialInvoke(builder, BUILDER_INIT, [s1])),
                 AssignInvoke(Local(n + 1, BUILDER), VirtualInvoke(builder, BUILDER_APPEND, [Coerce(s2, n + 3).outcome.value])),
                 AssignInvoke(Local(n + 2, STRING), VirtualInvoke(builder, BUILDER_TO_STRING, []))];
    assert Assigned(tail[2..]) == [Local(n + 2, STRING)] by {
      assert tail[2..][1..] == [];
    }
    assert Assigned(tail[1..]) == [Local(n + 1, BUILDER), Local(n + 2, STRING)] by {
      assert tail[1..][1..] == tail[2..];
    }
    assert Assigned(tail) == [Local(n + 1, BUILDER), Local(n + 2, STRING)];
    var c := Coerce(s2, n + 3);
    if TypeOf(s2) == STRING {
      assert e.units == [AssignNew(builder, BUILDER_CLASS)] + tail;
      assert e.units[1..] == tail;
    } else {
      assert e.units == [AssignNew(builder, BUILDER_CLASS), c.units[0]] + tail;
      assert e.units[1..][1..] == tail;
      assert Assigned(e.units[1..]) == [Local(n + 3, STRING)] + Assigned(tail);
    }
  }

  /**
   * Hence no local is assigned twice, and each assigned local is one of
   * the concatenation's own temporaries, declared at its type.
   */
  lemma AppendTwoDistinct(s1: Value, s2: Value, n: nat)
    requires Coercible(s2)
    ensures var e := AppendTwo(s1, s2, n);
            var a := Assigned(e.units);
            (forall i, j :: 0 <= i < j < |a| ==> a[i] != a[j]) &&
            (forall i :: 0 <= i < |a| ==> n <= a[i].id < n + |e.temps| && e.temps[a[i].id - n] == a[i].ty)
  {
    AppendTwoFresh(s1, s2, n);
    CoerceCases(s2, n + 3);
    var e := AppendTwo(s1, s2, n);
    if TypeOf(s2) == STRING {
      assert Assigned(e.units) == [Local(n, BUILDER), Local(n + 1, BUILDER), Local(n + 2, STRING)];
      assert e.temps == [BUILDER, BUILDER, STRING];
    } else {
      assert Assigned(e.units) == [Local(n, BUILDER), Local(n + 3, STRING), Local(n + 1, BUILDER), Local(n + 2, STRING)];
      assert e.temps == [BUILDER, BUILDER, STRING, STRING];
    }
  }

  /**
   * The coverage statements: a bare message gives the single
   * `Log.i(C_TAG, msg)` call; with a value, the concatenation of msg and
   * the value comes first and the call logs its result.
   */
  function LogStatements(msg: string, value: Option<Value>, n: nat): (e: Emitted<()>)
    ensures e.outcome.Ok? <==> value.None? || Coercible(value.value)
    ensures e.temps == [] <==> value.None?
    ensures e.outcome.Ok? ==>
              |e.units| >= 1 &&
              e.units[|e.units| - 1] == LogCall(if value.None? then StrConst(msg) else LocalV(Local(n + 2, STRING)))
  {
    match value
    case None => Emitted([LogCall(StrConst(msg))], [], Ok(()))
    case Some(v) =>
      var a := AppendTwo(StrConst(msg), v, n);
      match a.outcome
      case Err(err) => Emitted(a.units, a.temps, Err(err))
      case Ok(result) => Emitted(a.units + [LogCall(LocalV(result))], a.temps, Ok(()))
  }

  /**
   * Without a value exactly one statement is emitted, the log call on the
   * message literal.  With a coercible value the statements are the
   * concatenation's followed by one log call on the local the
   * concatenation's last statement assigns, so there are five or six; an
   * uncoercible value fails.
   */
  lemma LogStatementsShape(msg: string, value: Option<Value>, n: nat)
    ensures value.None? ==> LogStatements(msg, value, n) == Emitted([LogCall(StrConst(msg))], [], Ok(()))
    ensures var e := LogStatements(msg, value, n);
            value.Some? && Coercible(value.value) ==>
              e.outcome.Ok? &&
              |e.units| == (if TypeOf(value.value) == STRING then 5 else 6) &&
              e.units[..|e.units| - 1] == AppendTwo(StrConst(msg), value.value, n).units &&
              Def(e.units[|e.units| - 2]).Some? &&
              e.units[|e.units| - 1] == LogCall(LocalV(Def(e.units[|e.units| - 2]).value))
    ensures value.Some? && !Coercible(value.value) ==> LogStatements(msg, value, n).outcome.Err?
  {
    if value.Some? {
      AppendTwoShape(StrConst(msg), value.value, n);
    }
  }

  /** The list of statements a helper appends to, owned by its caller. */
  class UnitList {
    var units: seq<Stmt>

    constructor ()
      ensures units == []
    {
      units := [];
    }
  }

  /** A fresh local of type `t` in `b`. */
  method GenerateNewLocal(b: Body, t: Type) returns (l: Local)
    modifies b
    ensures l == Local(|old(b.locals)|, t)
    ensures b.locals == old(b.locals) + [t]
  {
    l := b.NewLocal(t);
  }

  /** String coercion of `value`, appending what it needs to `generated`. */
  method ToString(b: Body, value: Value, generated: UnitList) returns (r: Result<Value, Error>)
    modifies b, generated
    ensures var e := Coerce(value, old(|b.locals|));
            generated.units == old(generated.units) + e.units && b.locals == old(b.locals) + e.temps && r == e.outcome
  {
    var t := TypeOf(value);
    if t == STRING {
      return Ok(value);
    }
    if t.Prim? {
      var tmp := GenerateNewLocal(b, STRING);
      generated.units := generated.units + [AssignInvoke(tmp, StaticInvoke(ValueOf(t.kind), [value]))];
      r := Ok(LocalV(tmp));
    } else if value.LocalV? {
      var tmp := GenerateNewLocal(b, STRING);
      generated.units := generated.units + [AssignInvoke(tmp, VirtualInvoke(value.local, OBJECT_TO_STRING, []))];
      r := Ok(LocalV(tmp));
    } else {
      r := Err(UnsupportedOperand(value));
    }
  }

  /** The concatenation of s1 and s2, appended to `generated`. */
  method AppendTwoStrings(b: Body, s1: Value, s2: Value, generated: UnitList) returns (r: Result<Local, Error>)
    modifies b, generated
    ensures var e := AppendTwo(s1, s2, old(|b.locals|));
            generated.units == old(generated.units) + e.units && b.locals == old(b.locals) + e.temps && r == e.outcome
  {
    ghost var n, units0, locals0 := |b.locals|, generated.units, b.locals;
    var builder := GenerateNewLocal(b, BUILDER);
    generated.units := generated.units + [AssignNew(builder, BUILDER_CLASS)];
    var tmp := GenerateNewLocal(b, BUILDER);
    var result := GenerateNewLocal(b, STRING);
    var arg := ToString(b, s2, generated);
    ghost var c := Coerce(s2, n + 3);
    assert b.locals == locals0 + ([BUILDER, BUILDER, STRING] + c.temps);
    if arg.Err? {
      assert generated.units == units0 + ([AssignNew(builder, BUILDER_CLASS)] + c.units);
      return Err(arg.error);
    }
    generated.units := generated.units + [InvokeStmt(SpecialInvoke(builder, BUILDER_INIT, [s1])),
                                          AssignInvoke(tmp, VirtualInvoke(builder, BUILDER_APPEND, [arg.value])),
                                          AssignInvoke(result, VirtualInvoke(builder, BUILDER_TO_STRING, []))];
    r := Ok(result);
  }

  /**
   * The coverage statements for `msg` and an optional value.  On failure
   * the statements built so far are discarded, but the locals already
   * allocated stay in the body.
   */
  method GenerateLogStatements(b: Body, msg: string, value: Option<Value>) returns (r: Result<seq<Stmt>, Error>)
    modifies b
    ensures var e := LogStatements(msg, value, old(|b.locals|));
            b.locals == old(b.locals) + e.temps &&
            r == if e.outcome.Ok? then Ok(e.units) else Err(e.outcome.error)
  {
    ghost var n := |b.locals|;
    var generated := new UnitList();
    var logMsg := StrConst(msg);
    if value.Some? {
      var res := AppendTwoStrings(b, logMsg, value.value, generated);
      if res.Err? {
        return Err(res.error);
      }
      logMsg := LocalV(res.value);
      assert generated.units == AppendTwo(StrConst(msg), value.value, n).units;
    }
    assert generated.units + [LogCall(logMsg)] == LogStatements(msg, value, n).units;
    generated.units := generated.units + [LogCall(logMsg)];
    r := Ok(generated.units);
  }

  /** The coverage statement for a bare message: one log call, no new locals. */
  method GenerateLogStatement(b: Body, msg: string) returns (r: Result<seq<Stmt>, Error>)
    modifies b
    ensures r == Ok([LogCall(StrConst(msg))])
    ensures b.locals == old(b.locals)
  {
    r := GenerateLogStatements(b, msg, None);
  }
}
