/** The pure parts of the value objects: `LoxFunction` (arity, bind, rendering), `LoxClass`
    (method lookup, arity, rendering) and `LoxInstance` (property read and write, rendering).
    Calling a function or a class runs code, so `call` lives with the interpreter.

    Two snapshots of the first two classes exist. `Current` is `src/js/LoxFunction.js` and
    `src/js/LoxClass.js`: initializers, `bind`, and method lookup up the superclass chain.
    `Early` is `src/LoxFunction.js` and `src/LoxClass.js`: no `bind` method, the initializer
    flag ignored, and lookup in the class's own methods only. `src/js/LoxInstance.js` is shared. */
module Callables {
  import opened Wrappers
  import opened Tokens
  import opened Ast
  import opened Values
  import Environment

  datatype Runtime = Early | Current

  /** `arity`: one argument per declared parameter (both snapshots). */
  function Arity(f: LoxFunction): nat {
    |f.decl.params|
  }

  /** `toString` of a function (both snapshots). */
  function FunctionString(f: LoxFunction): (r: string)
    ensures |r| == |f.decl.name.lexeme| + 5
  {
    "<fn " + f.decl.name.lexeme + ">"
  }

  /** `toString` of a class: its name. */
  function ClassString(c: LoxClass): string {
    c.name
  }

  /** `toString` of an instance: its class's name and ` instance`. */
  function InstanceString(c: LoxClass): (r: string)
    ensures |r| == |c.name| + 9
  {
    c.name + " instance"
  }

  /** The renderings can be read back: the name sits between `<fn ` and `>`, or before
      ` instance`. */
  lemma RenderingsReadBack(f: LoxFunction, c: LoxClass)
    ensures FunctionString(f)[..4] == "<fn " && FunctionString(f)[|FunctionString(f)| - 1] == '>'
    ensures FunctionString(f)[4..|FunctionString(f)| - 1] == f.decl.name.lexeme
    ensures InstanceString(c)[..|c.name|] == c.name && InstanceString(c)[|c.name|..] == " instance"
  {
    var r := FunctionString(f);
    assert r == "<fn " + f.decl.name.lexeme + ">";
    assert r[4..|r| - 1] == f.decl.name.lexeme;
  }

  // ---------------------------------------------------------------------------------------
  // findMethod

  /** `findMethod`: the class's own method; in `Current`, failing that, the superclass's. The
      result is a function index (JS `null`/`undefined` is `None`). */
  function FindMethod(rt: Runtime, s: Store, c: nat, name: string): (r: Option<nat>)
    requires WellFormed(s) && c < |s.classes|
    ensures r.Some? ==> r.value < |s.functions|
    ensures name in s.classes[c].methods ==> r == Some(s.classes[c].methods[name])
    decreases c
  {
    var k := s.classes[c];
    if name in k.methods then Some(k.methods[name])
    else if rt == Current && k.superclass.Some? then FindMethod(rt, s, k.superclass.value, name)
    else None
  }

  /** The superclass chain from `c`, `c` first. */
  function Lineage(s: Store, c: nat): (r: seq<nat>)
    requires WellFormed(s) && c < |s.classes|
    ensures |r| > 0 && r[0] == c
    ensures forall k :: 0 <= k < |r| ==> r[k] < |s.classes|
    decreases c
  {
    match s.classes[c].superclass
    case None => [c]
    case Some(p) => [c] + Lineage(s, p)
  }

  /** Class `k` of the lineage is the first to define `name`. */
  predicate DefinesFirst(s: Store, c: nat, k: nat, name: string)
    requires WellFormed(s) && c < |s.classes|
  {
    var line := Lineage(s, c);
    && k < |line|
    && name in s.classes[line[k]].methods
    && forall j :: 0 <= j < k ==> name !in s.classes[line[j]].methods
  }

  /** In `Current`, `findMethod` yields the method of the first class up the superclass chain
      that defines the name, so an own method shadows an inherited one ... */
  lemma {:induction false} FindMethodFirstDefiner(s: Store, c: nat, k: nat, name: string)
    requires WellFormed(s) && c < |s.classes|
    requires DefinesFirst(s, c, k, name)
    ensures FindMethod(Current, s, c, name) == Some(s.classes[Lineage(s, c)[k]].methods[name])
    decreases c
  {
    if k > 0 {
      var p := s.classes[c].superclass.value;
      assert Lineage(s, c) == [c] + Lineage(s, p);
      assert name !in s.classes[Lineage(s, c)[0]].methods;
      forall j | 0 <= j < k - 1
        ensures name !in s.classes[Lineage(s, p)[j]].methods
      {
        assert Lineage(s, p)[j] == Lineage(s, c)[j + 1];
      }
      FindMethodFirstDefiner(s, p, k - 1, name);
    }
  }

  /** ... and yields nothing only when no class on the chain defines it. */
  lemma {:induction false} FindMethodNoneUndefined(s: Store, c: nat, k: nat, name: string)
    requires WellFormed(s) && c < |s.classes|
    requires FindMethod(Current, s, c, name).None? && k < |Lineage(s, c)|
    ensures name !in s.classes[Lineage(s, c)[k]].methods
    decreases c
  {
    if k > 0 {
      var p := s.classes[c].superclass.value;
      assert Lineage(s, c) == [c] + Lineage(s, p);
      FindMethodNoneUndefined(s, p, k - 1, name);
    }
  }

  /** The early snapshot is the special case without a superclass: it consults the class's own
      methods only, which is what the current one does for a class with no superclass. */
  lemma EarlyIsOwnMethods(s: Store, c: nat, name: string)
    requires WellFormed(s) && c < |s.classes|
    ensures FindMethod(Early, s, c, name)
         == (if name in s.classes[c].methods then Some(s.classes[c].methods[name]) else None)
    ensures s.classes[c].superclass.None? ==> FindMethod(Early, s, c, name) == FindMethod(Current, s, c, name)
  {
  }

  /** A class is never changed once created, so what `findMethod` finds on it is the same in
      every later store. */
  lemma {:induction false} FindMethodStable(rt: Runtime, a: Store, b: Store, c: nat, name: string)
    requires WellFormed(a) && WellFormed(b) && Grows(a, b) && c < |a.classes|
    ensures FindMethod(rt, b, c, name) == FindMethod(rt, a, c, name)
    decreases c
  {
    assert b.classes[c] == a.classes[c];
    var k := a.classes[c];
    if name !in k.methods && rt == Current && k.superclass.Some? {
      FindMethodStable(rt, a, b, k.superclass.value, name);
    }
  }

  /** `LoxClass.arity`: the arity of `init`, found as `findMethod` finds it, or 0. */
  function ClassArity(rt: Runtime, s: Store, c: nat): (r: nat)
    requires WellFormed(s) && c < |s.classes|
    ensures FindMethod(rt, s, c, "init").None? ==> r == 0
    ensures FindMethod(rt, s, c, "init").Some? ==> r == Arity(s.functions[FindMethod(rt, s, c, "init").value])
  {
    match FindMethod(rt, s, c, "init")
    case None => 0
    case Some(m) => Arity(s.functions[m])
  }

  // ---------------------------------------------------------------------------------------
  // bind

  /** `bind(instance)`: a new function with the same declaration and flag, closed over a fresh
      environment that binds only `this` and encloses the old closure. The early snapshot has
      no `bind`, so calling it is a `TypeError`. Yields the new store and the function's index. */
  function Bind(rt: Runtime, s: Store, fn: nat, instance: Value): (r: Result<(Store, nat), Fault>)
    requires WellFormed(s) && fn < |s.functions|
    ensures r.Ok? <==> rt.Current?
    ensures r.Err? ==> r.error.HostCrash?
    ensures r.Ok? ==> BoundFunction(s, fn, instance, r.value.0, r.value.1)
  {
    if rt.Early? then Err(HostCrash("bind is not a function"))
    else
      var f := s.functions[fn];
      var env := |s.frames|;
      var frames := Environment.Define(Environment.NewFrame(s.frames, Some(f.closure)), env, "this", instance);
      var s' := s.(frames := frames, functions := s.functions + [LoxFunction(f.decl, env, f.isInitializer)]);
      assert WellFormed(s') by {
        assert forall i :: 0 <= i < |s.functions| ==> s'.functions[i] == s.functions[i];
      }
      assert Grows(s, s') by {
        assert forall i :: 0 <= i < |s.frames| ==> frames[i] == s.frames[i];
      }
      assert frames[..|s.frames|] == s.frames;
      assert frames[env] == Frame(map["this" := instance], Some(f.closure));
      Ok((s', |s.functions|))
  }

  /** `b` is `a` plus function `g`: `fn` bound to `instance`. */
  predicate BoundFunction(a: Store, fn: nat, instance: Value, b: Store, g: nat)
    requires fn < |a.functions|
  {
    && WellFormed(b) && Grows(a, b)
    && g == |a.functions| && |b.functions| == g + 1
    && b.functions[g].decl == a.functions[fn].decl
    && b.functions[g].isInitializer == a.functions[fn].isInitializer
    && b.functions[g].closure == |a.frames| && |b.frames| == |a.frames| + 1
    && b.frames[|a.frames|] == Frame(map["this" := instance], Some(a.functions[fn].closure))
    && b.frames[..|a.frames|] == a.frames
    && b.classes == a.classes && b.instances == a.instances
  }

  // ---------------------------------------------------------------------------------------
  // LoxInstance

  /** `new LoxInstance(klass)`: no fields yet. Yields the new store and the instance's index. */
  function NewInstance(s: Store, c: nat): (r: (Store, nat))
    requires WellFormed(s) && c < |s.classes|
    ensures WellFormed(r.0) && Grows(s, r.0)
    ensures r.1 == |s.instances| && r.0.instances == s.instances + [LoxInstance(c, map[])]
    ensures r.0.frames == s.frames && r.0.functions == s.functions && r.0.classes == s.classes
  {
    (s.(instances := s.instances + [LoxInstance(c, map[])]), |s.instances|)
  }

  function UndefinedProperty(name: Token): Fault {
    RuntimeError(name, "Undefined property " + name.lexeme + ".")
  }

  /** `get`: a field if the instance has one, else the class's method bound to the instance,
      else "Undefined property". Binding may allocate, so the store comes back too. */
  function GetProperty(rt: Runtime, s: Store, i: nat, name: Token): (r: Result<(Store, Value), Fault>)
    requires WellFormed(s) && i < |s.instances|
    ensures name.lexeme in s.instances[i].fields ==> r == Ok((s, s.instances[i].fields[name.lexeme]))
    ensures r.Ok? ==> WellFormed(r.value.0) && Grows(s, r.value.0)
    ensures r == Err(UndefinedProperty(name))
        <==> name.lexeme !in s.instances[i].fields && FindMethod(rt, s, s.instances[i].klass, name.lexeme).None?
    ensures name.lexeme !in s.instances[i].fields && FindMethod(rt, s, s.instances[i].klass, name.lexeme).Some?
        ==> match Bind(rt, s, FindMethod(rt, s, s.instances[i].klass, name.lexeme).value, InstanceRef(i))
            case Ok(b) => r == Ok((b.0, FunRef(b.1)))
            case Err(e) => r == Err(e)
  {
    var inst := s.instances[i];
    if name.lexeme in inst.fields then Ok((s, inst.fields[name.lexeme]))
    else match FindMethod(rt, s, inst.klass, name.lexeme)
      case Some(m) =>
        (match Bind(rt, s, m, InstanceRef(i))
         case Ok(b) => Ok((b.0, FunRef(b.1)))
         case Err(e) => Err(e))
      case None => Err(UndefinedProperty(name))
  }

  /** `set`: writes the field, creating it if needed. The instance gains exactly that field,
      holding `v`; its other fields and every other instance are as they were. */
  function SetProperty(s: Store, i: nat, name: Token, v: Value): (r: Store)
    requires WellFormed(s) && i < |s.instances|
    ensures WellFormed(r) && Grows(s, r)
    ensures |r.instances| == |s.instances| && r.instances[i].klass == s.instances[i].klass
    ensures r.frames == s.frames && r.functions == s.functions && r.classes == s.classes
    ensures forall j :: 0 <= j < |s.instances| && j != i ==> r.instances[j] == s.instances[j]
    ensures r.instances[i].fields.Keys == s.instances[i].fields.Keys + {name.lexeme}
    ensures name.lexeme in r.instances[i].fields && r.instances[i].fields[name.lexeme] == v
    ensures forall x :: x in s.instances[i].fields && x != name.lexeme ==> r.instances[i].fields[x] == s.instances[i].fields[x]
  {
    s.(instances := s.instances[i := s.instances[i].(fields := s.instances[i].fields[name.lexeme := v])])
  }

  /** A field written by `set` is what `get` then reads, whatever methods the class has; every
      other field of every instance reads as before, and a name that was no field of an
      instance still is none: `get` finds a method for it, or reports it undefined, as before. */
  lemma SetThenGet(rt: Runtime, s: Store, i: nat, name: Token, v: Value, j: nat, other: Token)
    requires WellFormed(s) && i < |s.instances| && j < |s.instances|
    requires j != i || other.lexeme != name.lexeme
    ensures GetProperty(rt, SetProperty(s, i, name, v), i, name) == Ok((SetProperty(s, i, name, v), v))
    ensures other.lexeme in s.instances[j].fields ==>
      GetProperty(rt, SetProperty(s, i, name, v), j, other)
         == Ok((SetProperty(s, i, name, v), s.instances[j].fields[other.lexeme]))
    ensures other.lexeme !in s.instances[j].fields ==>
      && other.lexeme !in SetProperty(s, i, name, v).instances[j].fields
      && (GetProperty(rt, SetProperty(s, i, name, v), j, other) == Err(UndefinedProperty(other)) <==>
            FindMethod(rt, s, s.instances[j].klass, other.lexeme).None?)
  {
    var s' := SetProperty(s, i, name, v);
    FindMethodStable(rt, s, s', s.instances[j].klass, other.lexeme);
  }
}
