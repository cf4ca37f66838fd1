/**
 * The part of a Soot program that the analysis looks at, as immutable input
 * maps: statements (units) with their printed text, methods with their active
 * bodies, classes with their superclass and methods, the scene's class order
 * and reachable methods, and the interprocedural CFG queries getMethodOf,
 * getCallersOf and getSuccsOf.
 *
 * The queries are total: asking about an id the maps do not hold answers as
 * for an empty entity (a unit that is no statement of interest, a method
 * without body, a class without superclass), except getMethodOf, whose null
 * answer the analysis tests for and which is therefore an Option.
 */
module Jimple {
  import opened Wrappers
  import opened JavaString

  type UnitId = nat
  type MethodId = nat
  type ClassId = nat
  /** A Soot ValueBox; every use of a value in a statement has its own box. */
  type BoxId = nat

  /** A value used by an expression: its box, the name of its type and its printed form. */
  datatype Value = Value(box: BoxId, typeName: string, text: string)

  datatype InvokeKind = SpecialInvoke | VirtualInvoke | InterfaceInvoke | StaticInvoke | DynamicInvoke

  /** An invoke expression; base is the box of the receiver and means something for instance invokes only. */
  datatype InvokeExpr = InvokeExpr(kind: InvokeKind, base: BoxId, callee: MethodId, calleeName: string, args: seq<Value>)
  {
    /** InstanceInvokeExpr: special, virtual and interface invokes have a receiver. */
    predicate IsInstance() { kind == SpecialInvoke || kind == VirtualInvoke || kind == InterfaceInvoke }
  }

  /** The statement kinds the analysis distinguishes; call is the invoke an assignment contains, if any. */
  datatype Stmt =
    | AssignStmt(left: BoxId, right: BoxId, call: Option<InvokeExpr>)
    | InvokeStmt(invoke: InvokeExpr)
    | ReturnStmt
    | ReturnVoidStmt
    | OtherStmt

  /** A unit: its statement and its toString. */
  datatype Unit = Unit(stmt: Stmt, text: string)

  /** A method; body is None when Soot cannot give it an active body. */
  datatype Method = Method(signature: string, name: string, declaringClass: ClassId, body: Option<seq<UnitId>>)

  datatype Class = Class(name: string, packageName: string, superclass: Option<ClassId>, methods: seq<MethodId>)

  datatype Program = Program(
    units: map<UnitId, Unit>,
    methods: map<MethodId, Method>,
    classes: map<ClassId, Class>,
    classOrder: seq<ClassId>,
    reachable: seq<MethodId>,
    methodOf: map<UnitId, MethodId>,
    callersOf: map<MethodId, seq<UnitId>>,
    succsOf: map<UnitId, seq<UnitId>>)
  {
    function UnitAt(u: UnitId): Unit
    {
      if u in units then units[u] else Unit(OtherStmt, "")
    }

    function StmtOf(u: UnitId): Stmt { UnitAt(u).stmt }

    function TextOf(u: UnitId): string { UnitAt(u).text }

    function MethodAt(m: MethodId): Method
    {
      if m in methods then methods[m] else Method("", "", 0, None)
    }

    function ClassAt(c: ClassId): Class
    {
      if c in classes then classes[c] else Class("", "", None, [])
    }

    /** The name of the class declaring m. */
    function ClassNameOf(m: MethodId): string { ClassAt(MethodAt(m).declaringClass).name }

    /** getMethodOf: the method whose body holds u, if the CFG knows one. */
    function MethodOf(u: UnitId): Option<MethodId>
    {
      if u in methodOf then Some(methodOf[u]) else None
    }

    /** getCallersOf: the call sites of m. */
    function CallersOf(m: MethodId): seq<UnitId>
    {
      if m in callersOf then callersOf[m] else []
    }

    /** getSuccsOf: the CFG successors of u, in order. */
    function SuccsOf(u: UnitId): seq<UnitId>
    {
      if u in succsOf then succsOf[u] else []
    }

    /** The units of m's active body, in order; none for a method without body. */
    function BodyOf(m: MethodId): seq<UnitId>
    {
      match MethodAt(m).body
      case None => []
      case Some(b) => b
    }

    /** getMethodOf answers for every call site getCallersOf lists. */
    predicate CallSitesKnown()
    {
      forall m, k :: m in callersOf && 0 <= k < |callersOf[m]| ==> callersOf[m][k] in methodOf
    }
  }

  const DummyMainClass := "dummyMainClass"

  /** FlowDroid's generated entry point class: a method is from dummyMain when its class's name mentions dummyMainClass. */
  predicate FromDummyMain(p: Program, m: MethodId)
  {
    Contains(p.ClassNameOf(m), DummyMainClass)
  }

  /** The invoke expression a statement contains (containsInvokeExpr / getInvokeExpr). */
  function InvokeOf(s: Stmt): (r: Option<InvokeExpr>)
    ensures r.Some? <==> (s.InvokeStmt? || (s.AssignStmt? && s.call.Some?))
  {
    match s
    case InvokeStmt(e) => Some(e)
    case AssignStmt(_, _, call) => call
    case _ => None
  }
}
