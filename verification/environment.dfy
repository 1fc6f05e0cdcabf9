/** `src/Environment.js` over the store: an environment is the index of its frame, and the chain
    of `enclosing` links is followed through the store. */
module Environment {
  import opened Wrappers
  import opened Tokens
  import opened Values

  /** `new Environment(enclosing)`: a fresh frame with no bindings, appended to the store. */
  function NewFrame(frames: seq<Frame>, enclosing: Option<nat>): (r: seq<Frame>)
    requires Chained(frames)
    requires enclosing.Some? ==> enclosing.value < |frames|
    ensures Chained(r) && |r| == |frames| + 1 && r[..|frames|] == frames && SameLinks(frames, r)
    ensures r[|frames|] == Frame(map[], enclosing)
  {
    frames + [Frame(map[], enclosing)]
  }

  /** `define`: binds `name` in frame `f` itself, replacing any binding it had there. */
  function Define(frames: seq<Frame>, f: nat, name: string, v: Value): (r: seq<Frame>)
    requires f < |frames|
    ensures |r| == |frames|
    ensures r[f].values == frames[f].values[name := v] && r[f].enclosing == frames[f].enclosing
    ensures forall i :: 0 <= i < |frames| && i != f ==> r[i] == frames[i]
    ensures Chained(frames) ==> Chained(r)
    ensures SameLinks(frames, r)
  {
    frames[f := frames[f].(values := frames[f].values[name := v])]
  }

  /** `ancestor(distance)`: follows `distance` enclosing links; `None` when the chain ends first
      (the source then reads a property of `null` and crashes). */
  function Ancestor(frames: seq<Frame>, f: nat, distance: nat): (r: Option<nat>)
    requires Chained(frames) && f < |frames|
    ensures r.Some? ==> r.value <= f
    ensures distance == 0 ==> r == Some(f)
    decreases distance
  {
    if distance == 0 then Some(f)
    else match frames[f].enclosing
      case None => None
      case Some(e) => Ancestor(frames, e, distance - 1)
  }

  /** `name` is bound in the frame `distance` links out from `f`. */
  predicate BoundAt(frames: seq<Frame>, f: nat, distance: nat, name: string)
    requires Chained(frames) && f < |frames|
  {
    var a := Ancestor(frames, f, distance);
    a.Some? && name in frames[a.value].values
  }

  /** The frame `distance` links out is the nearest one binding `name`. */
  predicate Nearest(frames: seq<Frame>, f: nat, distance: nat, name: string)
    requires Chained(frames) && f < |frames|
  {
    BoundAt(frames, f, distance, name) && forall d :: 0 <= d < distance ==> !BoundAt(frames, f, d, name)
  }

  function UndefinedVariable(name: Token): Fault {
    RuntimeError(name, "Undefined variable " + name.lexeme + ".")
  }

  /** `get`: the value in the nearest frame on the chain that binds the name. */
  function Get(frames: seq<Frame>, f: nat, name: Token): (r: Result<Value, Fault>)
    requires Chained(frames) && f < |frames|
    ensures r.Err? ==> r.error == UndefinedVariable(name)
    decreases f
  {
    if name.lexeme in frames[f].values then Ok(frames[f].values[name.lexeme])
    else match frames[f].enclosing
      case Some(e) => Get(frames, e, name)
      case None => Err(UndefinedVariable(name))
  }

  /** `assign`: replaces the binding in the nearest frame that has one; never creates one. */
  function Assign(frames: seq<Frame>, f: nat, name: Token, v: Value): (r: Result<seq<Frame>, Fault>)
    requires Chained(frames) && f < |frames|
    ensures r.Err? ==> r.error == UndefinedVariable(name)
    ensures r.Ok? ==> |r.value| == |frames| && Chained(r.value) && SameLinks(frames, r.value)
    decreases f
  {
    if name.lexeme in frames[f].values then Ok(Define(frames, f, name.lexeme, v))
    else match frames[f].enclosing
      case Some(e) => Assign(frames, e, name, v)
      case None => Err(UndefinedVariable(name))
  }

  /** `getAt`: reads the ancestor's own map only; a missing name reads as `undefined`. */
  function GetAt(frames: seq<Frame>, f: nat, distance: nat, name: string): (r: Result<Value, Fault>)
    requires Chained(frames) && f < |frames|
    ensures r.Ok? <==> Ancestor(frames, f, distance).Some?
    ensures r.Ok? && !BoundAt(frames, f, distance, name) ==> r.value == Undefined
  {
    match Ancestor(frames, f, distance)
    case None => Err(HostCrash("ancestor of the environment chain is null"))
    case Some(a) => Ok(if name in frames[a].values then frames[a].values[name] else Undefined)
  }

  /** `assignAt`: writes into the ancestor's own map, creating the entry if absent. */
  function AssignAt(frames: seq<Frame>, f: nat, distance: nat, name: string, v: Value): (r: Result<seq<Frame>, Fault>)
    requires Chained(frames) && f < |frames|
    ensures r.Ok? <==> Ancestor(frames, f, distance).Some?
    ensures r.Ok? ==> |r.value| == |frames| && Chained(r.value) && SameLinks(frames, r.value)
  {
    match Ancestor(frames, f, distance)
    case None => Err(HostCrash("ancestor of the environment chain is null"))
    case Some(a) => Ok(Define(frames, a, name, v))
  }

  // Properties of the chain walk

  /** Walking `d1` then `d2` links is walking `d1 + d2` links. */
  lemma {:induction false} AncestorCompose(frames: seq<Frame>, f: nat, d1: nat, d2: nat)
    requires Chained(frames) && f < |frames|
    ensures Ancestor(frames, f, d1 + d2)
         == (match Ancestor(frames, f, d1) case None => None case Some(a) => Ancestor(frames, a, d2))
    decreases d1
  {
    if d1 > 0 {
      match frames[f].enclosing
      case None =>
      case Some(e) => AncestorCompose(frames, e, d1 - 1, d2);
    }
  }

  /** Rebinding a name anywhere leaves every chain as it was. */
  lemma {:induction false} AncestorAfterDefine(frames: seq<Frame>, g: nat, name: string, v: Value, f: nat, d: nat)
    requires Chained(frames) && f < |frames| && g < |frames|
    ensures Ancestor(Define(frames, g, name, v), f, d) == Ancestor(frames, f, d)
    decreases d
  {
    if d > 0 {
      match frames[f].enclosing
      case None =>
      case Some(e) => AncestorAfterDefine(frames, g, name, v, e, d - 1);
    }
  }

  /** One link out from `f`, depths shift by one. */
  lemma BoundAtShift(frames: seq<Frame>, f: nat, e: nat, d: nat, name: string)
    requires Chained(frames) && f < |frames| && frames[f].enclosing == Some(e)
    ensures e < |frames|
    ensures BoundAt(frames, f, d + 1, name) == BoundAt(frames, e, d, name)
    ensures Ancestor(frames, f, d + 1) == Ancestor(frames, e, d)
  {
  }

  /** `get` finds the nearest binding: when the frame `d` links out is the nearest binding the
      name, `get` yields what `getAt(d)` reads there. */
  lemma {:induction false} GetFindsNearest(frames: seq<Frame>, f: nat, name: Token, d: nat)
    requires Chained(frames) && f < |frames|
    requires Nearest(frames, f, d, name.lexeme)
    ensures Get(frames, f, name).Ok? && Get(frames, f, name) == GetAt(frames, f, d, name.lexeme)
    decreases f
  {
    if d > 0 {
      assert !BoundAt(frames, f, 0, name.lexeme);
      var e := frames[f].enclosing.value;
      BoundAtShift(frames, f, e, d - 1, name.lexeme);
      forall d' | 0 <= d' < d - 1
        ensures !BoundAt(frames, e, d', name.lexeme)
      {
        BoundAtShift(frames, f, e, d', name.lexeme);
      }
      GetFindsNearest(frames, e, name, d - 1);
    }
  }

  /** `get` succeeds only by finding the nearest binding. */
  lemma {:induction false} GetDepth(frames: seq<Frame>, f: nat, name: Token) returns (d: nat)
    requires Chained(frames) && f < |frames|
    requires Get(frames, f, name).Ok?
    ensures Nearest(frames, f, d, name.lexeme)
    ensures Get(frames, f, name) == GetAt(frames, f, d, name.lexeme)
    decreases f
  {
    if name.lexeme in frames[f].values {
      d := 0;
    } else {
      var e := frames[f].enclosing.value;
      var d0 := GetDepth(frames, e, name);
      d := d0 + 1;
      BoundAtShift(frames, f, e, d0, name.lexeme);
      forall d' | 0 <= d' < d
        ensures !BoundAt(frames, f, d', name.lexeme)
      {
        if d' > 0 { BoundAtShift(frames, f, e, d' - 1, name.lexeme); }
      }
    }
  }

  /** `get` raises "Undefined variable" only when no frame on the chain binds the name. */
  lemma {:induction false} GetFailsOnlyWhenUnbound(frames: seq<Frame>, f: nat, name: Token, d: nat)
    requires Chained(frames) && f < |frames|
    requires Get(frames, f, name).Err?
    ensures !BoundAt(frames, f, d, name.lexeme)
    decreases f
  {
    if d > 0 {
      match frames[f].enclosing
      case None =>
      case Some(e) =>
        BoundAtShift(frames, f, e, d - 1, name.lexeme);
        GetFailsOnlyWhenUnbound(frames, e, name, d - 1);
    }
  }

  /** `assign` updates exactly the nearest binding: it is `assignAt` at the nearest depth. */
  lemma {:induction false} AssignFindsNearest(frames: seq<Frame>, f: nat, name: Token, v: Value, d: nat)
    requires Chained(frames) && f < |frames|
    requires Nearest(frames, f, d, name.lexeme)
    ensures Assign(frames, f, name, v) == AssignAt(frames, f, d, name.lexeme, v)
    decreases f
  {
    if d > 0 {
      assert !BoundAt(frames, f, 0, name.lexeme);
      var e := frames[f].enclosing.value;
      BoundAtShift(frames, f, e, d - 1, name.lexeme);
      forall d' | 0 <= d' < d - 1
        ensures !BoundAt(frames, e, d', name.lexeme)
      {
        BoundAtShift(frames, f, e, d', name.lexeme);
      }
      AssignFindsNearest(frames, e, name, v, d - 1);
    }
  }

  /** `assign` and `get` fail on exactly the same names. */
  lemma {:induction false} AssignFailsLikeGet(frames: seq<Frame>, f: nat, name: Token, v: Value)
    requires Chained(frames) && f < |frames|
    ensures Assign(frames, f, name, v).Err? <==> Get(frames, f, name).Err?
    decreases f
  {
    if name.lexeme !in frames[f].values && frames[f].enclosing.Some? {
      AssignFailsLikeGet(frames, frames[f].enclosing.value, name, v);
    }
  }

  /** What `assignAt` writes, `getAt` at the same distance reads back; a frame the write did not
      reach reads as before. */
  lemma AssignAtThenGetAt(frames: seq<Frame>, f: nat, d: nat, name: string, v: Value, d': nat, name': string)
    requires Chained(frames) && f < |frames|
    requires AssignAt(frames, f, d, name, v).Ok?
    ensures GetAt(AssignAt(frames, f, d, name, v).value, f, d, name) == Ok(v)
    ensures Ancestor(frames, f, d') != Ancestor(frames, f, d) || name' != name
         ==> GetAt(AssignAt(frames, f, d, name, v).value, f, d', name') == GetAt(frames, f, d', name')
  {
    var a := Ancestor(frames, f, d).value;
    AncestorAfterDefine(frames, a, name, v, f, d);
    AncestorAfterDefine(frames, a, name, v, f, d');
  }

  /** What `define` binds, `get` from the same frame reads back. */
  lemma DefineThenGet(frames: seq<Frame>, f: nat, name: Token, v: Value)
    requires Chained(frames) && f < |frames|
    ensures Get(Define(frames, f, name.lexeme, v), f, name) == Ok(v)
  {
  }
}
