/** Write-once constants (relais/dev/const.py): the module replaces itself
    by an object whose attributes can be bound once and never rebound or
    deleted. The object's instance dictionary is the state. */
module Const {
  import opened Results

  /** One statement against the store: `const.name = value` or
      `del const.name`. */
  datatype Statement<V> = Bind(name: string, value: V) | Unbind(name: string)

  /** The bindings after one statement: a binding takes effect only for
      a name not bound yet; a deletion never does. */
  function Step<V>(bindings: map<string, V>, stmt: Statement<V>): map<string, V>
  {
    match stmt
    case Bind(name, value) => if name in bindings then bindings else bindings[name := value]
    case Unbind(_) => bindings
  }

  /** The bindings after running `stmts` one by one, each raised error
      caught and the next statement run: only a name's first binding
      takes effect, and nothing is ever removed. */
  function AfterAll<V>(bindings: map<string, V>, stmts: seq<Statement<V>>): map<string, V>
    decreases |stmts|
  {
    if stmts == [] then bindings
    else
      var next := Step(bindings, stmts[0]);
      AfterAll(next, stmts[1..])
  }

  /** Once bound, a name keeps its value through any later statements. */
  lemma {:induction false} BoundStaysBound<V>(bindings: map<string, V>, stmts: seq<Statement<V>>, name: string)
    requires name in bindings
    ensures name in AfterAll(bindings, stmts) && AfterAll(bindings, stmts)[name] == bindings[name]
    decreases |stmts|
  {
    if stmts != [] {
      var next := Step(bindings, stmts[0]);
      BoundStaysBound(next, stmts[1..], name);
    }
  }

  /** A name first bound by the `k`-th statement holds that statement's
      value at the end, whatever follows. */
  lemma {:induction false} FirstBindingWins<V>(bindings: map<string, V>, stmts: seq<Statement<V>>, k: nat)
    requires k < |stmts| && stmts[k].Bind?
    requires stmts[k].name !in bindings
    requires forall j :: 0 <= j < k ==> !(stmts[j].Bind? && stmts[j].name == stmts[k].name)
    ensures stmts[k].name in AfterAll(bindings, stmts)
    ensures AfterAll(bindings, stmts)[stmts[k].name] == stmts[k].value
    decreases k
  {
    var next := Step(bindings, stmts[0]);
    if k == 0 {
      BoundStaysBound(next, stmts[1..], stmts[k].name);
    } else {
      assert stmts[1..][k - 1] == stmts[k];
      FirstBindingWins(next, stmts[1..], k - 1);
    }
  }

  /** The object installed as the module: its instance dictionary. */
  class ConstStore<V> {
    var bindings: map<string, V>

    /** The store as the module is imported: empty. */
    constructor ()
      ensures bindings == map[]
    {
      bindings := map[];
    }

    /** `__setattr__`: a new name is stored; an existing one raises
        `ConstError` and keeps its value. Other names are untouched. */
    method SetAttr(name: string, value: V) returns (r: Outcome)
      modifies this
      ensures name in old(bindings) ==>
        r == Fail(ConstError("Can't rebind const (" + name + ")")) && bindings == old(bindings)
      ensures name !in old(bindings) ==> r == Pass && bindings == old(bindings)[name := value]
    {
      if name in bindings {
        return Fail(ConstError("Can't rebind const (" + name + ")"));
      }
      bindings := bindings[name := value];
      r := Pass;
    }

    /** `__delattr__`: always raises, `ConstError` for a bound name and
        `KeyError` for an unbound one, and so never changes the store. */
    function DelAttr(name: string): (r: Outcome)
      reads this
      ensures r.Fail?
      ensures r.error.ConstError? <==> name in bindings
      ensures r.error.KeyError? <==> name !in bindings
    {
      if name in bindings then Fail(ConstError("Can't delete const (" + name + ")"))
      else Fail(KeyError("Const (" + name + ") does not exist"))
    }

    /** Reading `const.name`: the bound value, or `AttributeError`. */
    function GetAttr(name: string): (r: Result<V>)
      reads this
      ensures r.Ok? <==> name in bindings
      ensures r.Ok? ==> r.value == bindings[name]
    {
      if name in bindings then Ok(bindings[name]) else Err(AttributeError(name))
    }
  }

  /** Run statements against the store, catching each raised error (as the
      tests do): the store ends as `AfterAll` says, and every name bound
      beforehand still holds its value. */
  method RunAll<V>(store: ConstStore<V>, stmts: seq<Statement<V>>) returns (outcomes: seq<Outcome>)
    modifies store
    ensures |outcomes| == |stmts|
    ensures store.bindings == AfterAll(old(store.bindings), stmts)
    ensures forall k :: 0 <= k < |stmts| ==> (outcomes[k].Pass? <==> stmts[k].Bind? && stmts[k].name !in AfterAll(old(store.bindings), stmts[..k]))
    ensures forall name | name in old(store.bindings) :: name in store.bindings && store.bindings[name] == old(store.bindings)[name]
  {
    outcomes := [];
    for k := 0 to |stmts|
      invariant |outcomes| == k
      invariant store.bindings == AfterAll(old(store.bindings), stmts[..k])
      invariant forall j :: 0 <= j < k ==> (outcomes[j].Pass? <==> stmts[j].Bind? && stmts[j].name !in AfterAll(old(store.bindings), stmts[..j]))
    {
      AfterAllStep(old(store.bindings), stmts, k);
      var outcome: Outcome;
      match stmts[k] {
        case Bind(name, value) =>
          outcome := store.SetAttr(name, value);
        case Unbind(name) =>
          outcome := store.DelAttr(name);
      }
      outcomes := outcomes + [outcome];
    }
    assert stmts[..|stmts|] == stmts;
    forall name | name in old(store.bindings)
      ensures name in store.bindings && store.bindings[name] == old(store.bindings)[name]
    {
      BoundStaysBound(old(store.bindings), stmts, name);
    }
  }

  /** Running one more statement extends `AfterAll` by one step. */
  lemma {:induction false} AfterAllStep<V>(bindings: map<string, V>, stmts: seq<Statement<V>>, k: nat)
    requires k < |stmts|
    ensures AfterAll(bindings, stmts[..k + 1]) == Step(AfterAll(bindings, stmts[..k]), stmts[k])
    decreases k
  {
    var next := Step(bindings, stmts[0]);
    if k == 0 {
      assert stmts[..1][1..] == [];
    } else {
      assert stmts[..k + 1][1..] == stmts[1..][..k];
      assert stmts[..k][1..] == stmts[1..][..k - 1];
      AfterAllStep(next, stmts[1..], k - 1);
    }
  }
}
