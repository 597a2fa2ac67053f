/**
 * The abstract Jimple vocabulary the probe synthesiser works with: types,
 * locals, operands, invoke expressions and the handful of statement forms
 * the generator ever produces.  Method and field references are opaque
 * symbol names that always resolve.
 */
module Jimple {

  datatype Option<+T> = None | Some(value: T)

  datatype Result<+T, +E> = Ok(value: T) | Err(error: E)

  /** The eight primitive types; a Jimple value of one of them is a PrimType. */
  datatype PrimKind = BooleanKind | ByteKind | CharKind | ShortKind | IntKind | LongKind | FloatKind | DoubleKind

  /** How the primitive type prints inside a method subsignature. */
  function PrimName(k: PrimKind): string
  {
    match k
    case BooleanKind => "boolean"
    case ByteKind => "byte"
    case CharKind => "char"
    case ShortKind => "short"
    case IntKind => "int"
    case LongKind => "long"
    case FloatKind => "float"
    case DoubleKind => "double"
  }

  datatype Type = Prim(kind: PrimKind) | Ref(className: string)

  const STRING_CLASS: string := "java.lang.String"
  const BUILDER_CLASS: string := "java.lang.StringBuilder"
  const STRING: Type := Ref(STRING_CLASS)
  const BUILDER: Type := Ref(BUILDER_CLASS)
  const CLASS: Type := Ref("java.lang.Class")
  const PRINT_STREAM: Type := Ref("java.io.PrintStream")
  const INT: Type := Prim(IntKind)
  const VIEW: Type := Ref("android.view.View")
  const MENU_ITEM: Type := Ref("android.view.MenuItem")

  /** A local variable of a method body; `id` is its position in the body's local chain. */
  datatype Local = Local(id: nat, ty: Type)

  datatype FieldRef = FieldRef(cls: string, name: string, ty: Type)

  /** The operands that occur in synthesised statements. */
  datatype Value =
    | StrConst(text: string)
    | LocalV(local: Local)
    | StaticField(field: FieldRef)

  function TypeOf(v: Value): Type
  {
    match v
    case StrConst(_) => STRING
    case LocalV(l) => l.ty
    case StaticField(f) => f.ty
  }

  /** A method reference: declaring class and subsignature. */
  datatype MethodRef = MethodRef(cls: string, subsignature: string)

  const BUILDER_INIT: MethodRef := MethodRef(BUILDER_CLASS, "void <init>(java.lang.String)")
  const BUILDER_APPEND: MethodRef := MethodRef(BUILDER_CLASS, "java.lang.StringBuilder append(java.lang.String)")
  const BUILDER_TO_STRING: MethodRef := MethodRef(BUILDER_CLASS, "java.lang.String toString()")
  const OBJECT_TO_STRING: MethodRef := MethodRef("java.lang.Object", "java.lang.String toString()")
  const GET_CLASS: MethodRef := MethodRef("java.lang.Object", "java.lang.Class getClass()")
  const GET_NAME: MethodRef := MethodRef("java.lang.Class", "java.lang.String getName()")
  const PRINTLN: MethodRef := MethodRef("java.io.PrintStream", "void println(java.lang.String)")
  const VIEW_GET_ID: MethodRef := MethodRef("android.view.View", "int getId()")
  const MENU_GET_ITEM_ID: MethodRef := MethodRef("android.view.MenuItem", "int getItemId()")
  const LOG_I: MethodRef := MethodRef("android.util.Log", "int i(java.lang.String,java.lang.String)")
  const SYSTEM_OUT: FieldRef := FieldRef("java.lang.System", "out", PRINT_STREAM)

  /** `String.valueOf` overloaded for the given primitive type. */
  function ValueOf(k: PrimKind): MethodRef
  {
    MethodRef(STRING_CLASS, "java.lang.String valueOf(" + PrimName(k) + ")")
  }

  datatype Invoke =
    | SpecialInvoke(base: Local, callee: MethodRef, args: seq<Value>)
    | VirtualInvoke(base: Local, callee: MethodRef, args: seq<Value>)
    | InterfaceInvoke(base: Local, callee: MethodRef, args: seq<Value>)
    | StaticInvoke(callee: MethodRef, args: seq<Value>)

  /**
   * The statement forms the generator emits.  An IfEqNull holds its target
   * statement itself, as a Jimple IfStmt holds a reference to its target unit.
   */
  datatype Stmt =
    | AssignNew(lhs: Local, cls: string)
    | AssignInvoke(lhs: Local, call: Invoke)
    | AssignField(lhs: Local, field: FieldRef)
    | InvokeStmt(call: Invoke)
    | IfEqNull(cond: Local, target: Stmt)

  /** Why synthesis of a probe can fail. */
  datatype Error =
    | UnsupportedOperand(operand: Value)   // neither a string, a primitive nor a local
    | NoThisLocal                          // `this` requested in a static method

  /** A class as the filter sees it: its package and its short name. */
  datatype ClassId = ClassId(packageName: string, shortName: string)

  /** The fully qualified name, as `SootClass.getName` gives it. */
  function FullName(c: ClassId): string
  {
    if c.packageName == "" then c.shortName else c.packageName + "." + c.shortName
  }

  /** The parts of a target method the engine reads. */
  datatype MethodInfo = MethodInfo(name: string, signature: string, paramTypes: seq<Type>, declaringClass: ClassId)

  /** The local a statement assigns, if any. */
  function Def(s: Stmt): Option<Local>
  {
    match s
    case AssignNew(l, _) => Some(l)
    case AssignInvoke(l, _) => Some(l)
    case AssignField(l, _) => Some(l)
    case InvokeStmt(_) => None
    case IfEqNull(_, _) => None
  }

  /**
   * What a synthesis step produced: the statements it appended, the types
   * of the temporaries it allocated (in allocation order, so the i-th one
   * has id n + i when the first fresh id was n), and its outcome.  On an
   * Err outcome `units` and `temps` are what had been emitted before the
   * failure.
   */
  datatype Emitted<+T> = Emitted(units: seq<Stmt>, temps: seq<Type>, outcome: Result<T, Error>)
}
