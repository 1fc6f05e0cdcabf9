/** The runtime objects of the interpreter, held in an explicit store.

    JS objects with identity (environments, functions, classes, instances) live in sequences of
    the store and are referred to by their index, so that `===` on them is comparison of indices.
    Allocation appends, and nothing is ever removed. */
module Values {
  import opened Wrappers
  import opened Tokens
  import opened Ast

  /** A Lox value: JS `null`, booleans, numbers (exact reals), strings, `undefined` (what a missing
      map entry or a statement-valued visitor yields), the native `clock`, and references. */
  datatype Value =
    | Null
    | Bool(b: bool)
    | Num(n: real)
    | Str(s: string)
    | Undefined
    | Clock
    | FunRef(fn: nat)
    | ClassRef(cls: nat)
    | InstanceRef(inst: nat)

  /** An `Environment`: its own bindings and the environment it encloses, if any. */
  datatype Frame = Frame(values: map<string, Value>, enclosing: Option<nat>)

  /** A `LoxFunction`: its declaration, its closure environment and the initializer flag. */
  datatype LoxFunction = LoxFunction(decl: FunDecl, closure: nat, isInitializer: bool)

  /** A `LoxClass`: its name, its methods (by function index) and its superclass, if any. */
  datatype LoxClass = LoxClass(name: string, methods: map<string, nat>, superclass: Option<nat>)

  /** A `LoxInstance`: its class and its fields. */
  datatype LoxInstance = LoxInstance(klass: nat, fields: map<string, Value>)

  datatype Store = Store(
    frames: seq<Frame>,
    functions: seq<LoxFunction>,
    classes: seq<LoxClass>,
    instances: seq<LoxInstance>)

  /** What stops an evaluation early. `Return` is the `Return` signal of a `return` statement;
      `RuntimeError` is the interpreter's own error, with its token and message; `HostCrash` is a
      JS `TypeError` the source lets escape (a missing method, a property read on `undefined`);
      `Unmodelled` marks floating-point and coercion results outside this model; `OutOfFuel`
      bounds loops and calls. */
  datatype Fault =
    | Return(value: Value)
    | RuntimeError(token: Token, message: string)
    | HostCrash(why: string)
    | Unmodelled(why: string)
    | OutOfFuel

  /** Every environment encloses only environments created before it, so each enclosing chain
      is finite; likewise for the superclass chain of a class. */
  predicate Chained(frames: seq<Frame>) {
    forall i :: 0 <= i < |frames| && frames[i].enclosing.Some? ==> frames[i].enclosing.value < i
  }

  predicate ClassesChained(classes: seq<LoxClass>) {
    forall i :: 0 <= i < |classes| && classes[i].superclass.Some? ==> classes[i].superclass.value < i
  }

  /** The links between objects stay inside the store: closures name existing environments,
      methods existing functions, instances existing classes. References held in bindings and
      fields are not covered; following one that dangles is a `HostCrash`. */
  predicate WellFormed(s: Store) {
    && Chained(s.frames)
    && ClassesChained(s.classes)
    && (forall i :: 0 <= i < |s.functions| ==> s.functions[i].closure < |s.frames|)
    && (forall i, n :: 0 <= i < |s.classes| && n in s.classes[i].methods ==> s.classes[i].methods[n] < |s.functions|)
    && (forall i :: 0 <= i < |s.instances| ==> s.instances[i].klass < |s.classes|)
  }

  /** `b` holds `a`'s environments, possibly rebound, with their enclosing links unchanged. */
  predicate SameLinks(a: seq<Frame>, b: seq<Frame>) {
    |a| <= |b| && forall i :: 0 <= i < |a| ==> b[i].enclosing == a[i].enclosing
  }

  /** `b` is `a` after allocations and updates: nothing was removed, and environment links and
      class descriptions, which the source never mutates, are unchanged. */
  predicate Grows(a: Store, b: Store) {
    && SameLinks(a.frames, b.frames)
    && a.functions <= b.functions
    && a.classes <= b.classes
    && |a.instances| <= |b.instances|
  }

  /** Environments rebound or appended, with the old links kept, leave a store well-formed. */
  lemma NewFramesKeep(s: Store, frames: seq<Frame>)
    requires WellFormed(s) && Chained(frames) && SameLinks(s.frames, frames)
    ensures WellFormed(s.(frames := frames)) && Grows(s, s.(frames := frames))
  {
  }

  /** Appending a function closed over an existing environment keeps a store well-formed. */
  lemma AddFunctionKeeps(s: Store, f: LoxFunction)
    requires WellFormed(s) && f.closure < |s.frames|
    ensures WellFormed(s.(functions := s.functions + [f])) && Grows(s, s.(functions := s.functions + [f]))
  {
    assert forall i :: 0 <= i < |s.functions| ==> (s.functions + [f])[i] == s.functions[i];
  }

  /** So does appending a class whose superclass and methods already exist. */
  lemma AddClassKeeps(s: Store, k: LoxClass)
    requires WellFormed(s)
    requires k.superclass.Some? ==> k.superclass.value < |s.classes|
    requires forall n :: n in k.methods ==> k.methods[n] < |s.functions|
    ensures WellFormed(s.(classes := s.classes + [k])) && Grows(s, s.(classes := s.classes + [k]))
  {
    assert forall i :: 0 <= i < |s.classes| ==> (s.classes + [k])[i] == s.classes[i];
  }

  lemma GrowsTrans(a: Store, b: Store, c: Store)
    requires Grows(a, b) && Grows(b, c)
    ensures Grows(a, c)
  {
  }
}
