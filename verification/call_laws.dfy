/** What `LoxFunction.call` and `LoxClass.call` do, stated against a description of the call
    frame that does not follow the binding loop: which names the fresh environment binds and to
    which arguments, what a `Return` or normal completion of the body yields, and what calling a
    class with an initializer yields. */
module CallLaws {
  import opened Wrappers
  import opened Tokens
  import opened Ast
  import opened Values
  import opened Callables
  import opened Interpreter
  import Environment

  /** The argument at position `k`; `args[k]` is `undefined` in JavaScript past the end. */
  function ArgAt(args: seq<Value>, k: nat): Value {
    if k < |args| then args[k] else Undefined
  }

  /** Parameter `k` is the last one with its name, so its binding is the one that stays. */
  predicate LastBinding(params: seq<Token>, k: nat)
    requires k < |params|
  {
    forall j :: k < j < |params| ==> params[j].lexeme != params[k].lexeme
  }

  /** `params.forEach((param, i) => environment.define(param.lexeme, args[i]))` on frame `f`:
      exactly the parameter names are added to the frame, and every other binding of the frame
      and every other frame is as it was. */
  lemma {:induction false} BindParamsKeys(frames: seq<Frame>, f: nat, params: seq<Token>, args: seq<Value>)
    requires Chained(frames) && f < |frames|
    ensures var r := BindParams(frames, f, params, args);
      && r[f].enclosing == frames[f].enclosing
      && r[f].values.Keys == frames[f].values.Keys + Lexemes(params)
      && (forall x :: x in frames[f].values && x !in Lexemes(params) ==> r[f].values[x] == frames[f].values[x])
      && (forall g :: 0 <= g < |frames| && g != f ==> r[g] == frames[g])
    decreases |params|
  {
    if |params| > 0 {
      var rest := if |args| > 0 then args[1..] else [];
      var frames1 := Environment.Define(frames, f, params[0].lexeme, ArgAt(args, 0));
      BindParamsKeys(frames1, f, params[1..], rest);
      LexemesCons(params);
    }
  }

  /** Each parameter is bound to the argument at its position; when two parameters share a
      name, the later one's argument is the one that stays. */
  lemma {:induction false} BindParamsValues(frames: seq<Frame>, f: nat, params: seq<Token>, args: seq<Value>)
    requires Chained(frames) && f < |frames|
    ensures var r := BindParams(frames, f, params, args);
      forall k :: 0 <= k < |params| && LastBinding(params, k) ==>
        params[k].lexeme in r[f].values && r[f].values[params[k].lexeme] == ArgAt(args, k)
    decreases |params|
  {
    if |params| > 0 {
      var rest := if |args| > 0 then args[1..] else [];
      var frames1 := Environment.Define(frames, f, params[0].lexeme, ArgAt(args, 0));
      BindParamsValues(frames1, f, params[1..], rest);
      BindParamsKeys(frames1, f, params[1..], rest);
      var r := BindParams(frames1, f, params[1..], rest);
      forall k | 0 <= k < |params| && LastBinding(params, k)
        ensures params[k].lexeme in r[f].values && r[f].values[params[k].lexeme] == ArgAt(args, k)
      {
        if k == 0 {
          assert params[0].lexeme !in Lexemes(params[1..]) by {
            forall j | 0 <= j < |params[1..]| ensures params[1..][j].lexeme != params[0].lexeme {
              assert params[1..][j] == params[j + 1];
            }
          }
        } else {
          assert params[1..][k - 1] == params[k];
          assert LastBinding(params[1..], k - 1) by {
            forall j | k - 1 < j < |params[1..]| ensures params[1..][j].lexeme != params[1..][k - 1].lexeme {
              assert params[1..][j] == params[j + 1];
            }
          }
          assert ArgAt(rest, k - 1) == ArgAt(args, k);
        }
      }
    }
  }

  /** The state `LoxFunction.call` runs the body in: one new environment, enclosed by the
      function's closure, binding exactly the parameters, each to the argument at its position
      (`undefined` for a missing one). Nothing else in the store or the state changes. */
  function CallEntry(st: State, i: nat, args: seq<Value>): (entry: State)
    requires WellFormed(st.store) && i < |st.store.functions|
    ensures var env := |st.store.frames|;
      var f := st.store.functions[i];
      && WellFormed(entry.store) && Grows(st.store, entry.store)
      && |entry.store.frames| == env + 1 && entry.store.frames[..env] == st.store.frames
      && entry.store.frames[env].enclosing == Some(f.closure)
      && entry.store.frames[env].values.Keys == Lexemes(f.decl.params)
      && (forall k :: 0 <= k < |f.decl.params| && LastBinding(f.decl.params, k) ==>
            entry.store.frames[env].values[f.decl.params[k].lexeme] == ArgAt(args, k))
    ensures entry.env == st.env && entry.out == st.out
    ensures entry.store == st.store.(frames := entry.store.frames)
  {
    var f := st.store.functions[i];
    var env := |st.store.frames|;
    var blank := Environment.NewFrame(st.store.frames, Some(f.closure));
    var frames := BindParams(blank, env, f.decl.params, args);
    BindParamsKeys(blank, env, f.decl.params, args);
    BindParamsValues(blank, env, f.decl.params, args);
    assert frames[..env] == st.store.frames;
    NewFramesKeep(st.store, frames);
    st.(store := st.store.(frames := frames))
  }

  /** `LoxFunction.call`: the body runs as a block in the call's entry state. A `Return` stops
      at this boundary and yields its value; normal completion yields `null`; in the current
      snapshot an initializer yields `this` of its closure on both paths; every other stop
      passes through unchanged. With no fuel left the call does not start. */
  lemma CallFunctionRuns(cx: Context, i: nat, args: seq<Value>, st: State, fuel: nat)
    requires Valid(cx, st) && i < |st.store.functions|
    ensures fuel == 0 ==> CallFunction(cx, i, args, st, fuel) == Stopped(OutOfFuel, st)
    ensures fuel > 0 ==>
      var f := st.store.functions[i];
      var body := ExecBlock(cx, f.decl.body, |st.store.frames|, CallEntry(st, i, args), fuel - 1);
      var r := CallFunction(cx, i, args, st, fuel);
      && (body.Stopped? && !body.fault.Return? ==> r == body)
      && (!(body.Stopped? && !body.fault.Return?) && cx.rt.Current? && f.isInitializer ==>
            r == FromResult(Environment.GetAt(body.st.store.frames, f.closure, 0, "this"), body.st))
      && (!(cx.rt.Current? && f.isInitializer) && body.Stopped? && body.fault.Return? ==>
            r == Done(body.fault.value, body.st))
      && (!(cx.rt.Current? && f.isInitializer) && body.Done? ==> r == Done(Null, body.st))
  {
    if fuel > 0 {
      var f := st.store.functions[i];
      var env := |st.store.frames|;
      var frames := BindParams(Environment.NewFrame(st.store.frames, Some(f.closure)), env, f.decl.params, args);
      assert CallEntry(st, i, args) == st.(store := st.store.(frames := frames));
    }
  }

  /** `LoxClass.call`: a new instance is created first. Without an initializer it is the
      result. In the current snapshot the initializer is bound to the new instance and called
      with the arguments: a stop passes through, and otherwise the result is the instance, in
      the state the initializer left. The early snapshot has no `bind` and stops. */
  lemma CallClassRuns(cx: Context, c: nat, args: seq<Value>, st: State, fuel: nat)
    requires Valid(cx, st) && c < |st.store.classes|
    ensures var s1 := NewInstance(st.store, c).0;
      var instance := InstanceRef(|st.store.instances|);
      var init := FindMethod(cx.rt, st.store, c, "init");
      var r := CallClass(cx, c, args, st, fuel);
      && (init.None? ==> r == Done(instance, st.(store := s1)))
      && (init.Some? && cx.rt.Early? ==> r == Stopped(HostCrash("bind is not a function"), st.(store := s1)))
      && (init.Some? && cx.rt.Current? ==>
            var b := Bind(cx.rt, s1, init.value, instance).value;
            var call := CallFunction(cx, b.1, args, st.(store := b.0), fuel);
            && BoundFunction(s1, init.value, instance, b.0, b.1)
            && (call.Stopped? ==> r == call)
            && (call.Done? ==> r == Done(instance, call.st)))
  {
    FindMethodStable(cx.rt, st.store, NewInstance(st.store, c).0, c, "init");
  }
}
