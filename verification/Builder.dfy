/** The batch builder and the arguments of a function call: errors met while building are kept and
    surface only when the transaction is sent. */
module Builder {
  import opened Types

  datatype Action =
    | AddKey(publicKey: PublicKey, accessKey: nat)
    | FunctionCall(call: FunctionCallAction)
    | CreateAccount
    | DeleteAccount(beneficiary: AccountId)
    | DeleteKey(publicKey: PublicKey)
    | DeployContract(code: Bytes)
    | Stake(amount: nat, publicKey: PublicKey)
    | Transfer(amount: nat)

  datatype FunctionCallAction = FunctionCallAction(methodName: string, args: Bytes, gas: nat, deposit: nat)

  /** Gas is counted in units of gas: 10 and 300 Tgas. */
  const DEFAULT_CALL_FN_GAS: nat := 10_000_000_000_000
  const MAX_GAS: nat := 300_000_000_000_000
  const DEFAULT_CALL_DEPOSIT: nat := 0

  // ----- A function call -----

  datatype FunctionData = FunctionData(name: string, args: Result<Bytes, Error>, deposit: nat, gas: nat)

  /** What a user says about a call, in order. A serializing setter carries the serializer's result. */
  datatype Setting =
    | SetArgs(raw: Bytes)
    | SetArgsJson(json: Result<Bytes, nat>)
    | SetArgsBorsh(borsh: Result<Bytes, nat>)
    | SetDeposit(deposit: nat)
    | SetGas(gas: nat)
    | SetMaxGas

  function NewFunction(name: string): FunctionData {
    FunctionData(name, Ok([]), DEFAULT_CALL_DEPOSIT, DEFAULT_CALL_FN_GAS)
  }

  function Set(f: FunctionData, x: Setting): FunctionData {
    match x
    case SetArgs(raw) => if f.args.Err? then f else f.(args := Ok(raw))
    case SetArgsJson(Ok(bytes)) => f.(args := Ok(bytes))
    case SetArgsJson(Err(e)) => f.(args := Err(Serialization(e)))
    case SetArgsBorsh(Ok(bytes)) => f.(args := Ok(bytes))
    case SetArgsBorsh(Err(e)) => f.(args := Err(Io(e)))
    case SetDeposit(d) => f.(deposit := d)
    case SetGas(g) => f.(gas := g)
    case SetMaxGas => f.(gas := MAX_GAS)
  }

  function SetAll(f: FunctionData, xs: seq<Setting>): FunctionData {
    if xs == [] then f else Set(SetAll(f, xs[..|xs| - 1]), xs[|xs| - 1])
  }

  function IntoAction(f: FunctionData): Result<FunctionCallAction, Error> {
    match f.args
    case Ok(args) => Ok(FunctionCallAction(f.name, args, f.gas, f.deposit))
    case Err(e) => Err(e)
  }

  predicate Serializes(x: Setting) { x.SetArgsJson? || x.SetArgsBorsh? }

  /** What a serializing setter leaves as the arguments. */
  predicate Leaves(x: Setting, args: Result<Bytes, Error>) {
    match x
    case SetArgsJson(Ok(bytes)) => args == Ok(bytes)
    case SetArgsJson(Err(e)) => args == Err(Serialization(e))
    case SetArgsBorsh(Ok(bytes)) => args == Ok(bytes)
    case SetArgsBorsh(Err(e)) => args == Err(Io(e))
    case _ => false
  }

  /** The last serializing setter decides whether a call has arguments: an error stays whatever plain
      bytes are set after it, and a later success of a serializer clears it. */
  lemma {:induction false} LastSerializerDecides(name: string, xs: seq<Setting>, i: nat)
    requires i < |xs| && Serializes(xs[i]) && forall j :: i < j < |xs| ==> !Serializes(xs[j])
    ensures var args := SetAll(NewFunction(name), xs).args;
      if (exists e :: xs[i] == SetArgsJson(Err(e))) || (exists e :: xs[i] == SetArgsBorsh(Err(e)))
      then Leaves(xs[i], args)
      else args.Ok? && ((forall j :: i < j < |xs| ==> !xs[j].SetArgs?) ==> Leaves(xs[i], args))
    decreases |xs|
  {
    var init := xs[..|xs| - 1];
    if i < |xs| - 1 {
      LastSerializerDecides(name, init, i);
    }
  }

  lemma {:induction false} NoSerializerNoError(name: string, xs: seq<Setting>)
    requires forall j :: 0 <= j < |xs| ==> !Serializes(xs[j])
    ensures SetAll(NewFunction(name), xs).args.Ok?
    decreases |xs|
  {
    if xs != [] { NoSerializerNoError(name, xs[..|xs| - 1]); }
  }

  datatype Field = ArgsField | DepositField | GasField

  predicate Sets(x: Setting, field: Field) {
    match field
    case ArgsField => Serializes(x) || x.SetArgs?
    case DepositField => x.SetDeposit?
    case GasField => x.SetGas? || x.SetMaxGas?
  }

  /** Nothing is said about the field. */
  predicate Unset(xs: seq<Setting>, field: Field) { forall j :: 0 <= j < |xs| ==> !Sets(xs[j], field) }

  /** The last that is said about the field. */
  predicate LastSetter(xs: seq<Setting>, i: int, field: Field) {
    0 <= i < |xs| && Sets(xs[i], field) && forall j :: i < j < |xs| ==> !Sets(xs[j], field)
  }

  /** The last deposit set is the call's, else there is none; no setter changes its name. */
  lemma {:induction false} DepositDecided(name: string, xs: seq<Setting>)
    ensures var f := SetAll(NewFunction(name), xs);
      && f.name == name
      && (Unset(xs, DepositField) ==> f.deposit == 0)
      && forall i :: LastSetter(xs, i, DepositField) ==> f.deposit == xs[i].deposit
    decreases |xs|
  {
    if xs != [] { DepositDecided(name, xs[..|xs| - 1]); }
  }

  /** The last gas set is the call's, where the maximum is 300 Tgas; else it is 10 Tgas. */
  lemma {:induction false} GasDecided(name: string, xs: seq<Setting>)
    ensures var f := SetAll(NewFunction(name), xs);
      && (Unset(xs, GasField) ==> f.gas == 10_000_000_000_000)
      && forall i :: LastSetter(xs, i, GasField) ==>
           f.gas == if xs[i].SetMaxGas? then 300_000_000_000_000 else xs[i].gas
    decreases |xs|
  {
    if xs != [] { GasDecided(name, xs[..|xs| - 1]); }
  }

  /** The arguments that the last word about them leaves; plain bytes do not clear an error. */
  predicate Settled(x: Setting, args: Result<Bytes, Error>) {
    if x.SetArgs? then args.Ok? ==> args.value == x.raw else Leaves(x, args)
  }

  lemma SetSettles(f: FunctionData, x: Setting)
    ensures if Sets(x, ArgsField) then Settled(x, Set(f, x).args) else Set(f, x).args == f.args
  {
  }

  lemma LastSetterBefore(xs: seq<Setting>, i: int, field: Field)
    requires xs != [] && LastSetter(xs, i, field)
    ensures if Sets(xs[|xs| - 1], field) then i == |xs| - 1 else LastSetter(xs[..|xs| - 1], i, field)
  {
  }

  /** The arguments set last are the call's, else there are none. */
  lemma {:induction false} ArgsDecided(name: string, xs: seq<Setting>)
    ensures Unset(xs, ArgsField) ==> SetAll(NewFunction(name), xs).args == Ok([])
    ensures forall i :: LastSetter(xs, i, ArgsField) ==> Settled(xs[i], SetAll(NewFunction(name), xs).args)
    decreases |xs|
  {
    hide Set, Sets, Settled;
    if xs != [] {
      var init, x := xs[..|xs| - 1], xs[|xs| - 1];
      ArgsDecided(name, init);
      SetSettles(SetAll(NewFunction(name), init), x);
      forall i | LastSetter(xs, i, ArgsField) ensures Settled(xs[i], SetAll(NewFunction(name), xs).args) {
        LastSetterBefore(xs, i, ArgsField);
      }
    }
  }

  class Function {
    const name: string
    var data: FunctionData
    ghost var settings: seq<Setting>   // what has been set so far

    ghost predicate Valid()
      reads this
    {
      data == SetAll(NewFunction(name), settings)
    }

    constructor (name: string)
      ensures Valid() && this.name == name && settings == []
    {
      this.name := name;
      data := NewFunction(name);
      settings := [];
    }

    /** Records a setting that is about to be made. */
    ghost method Note(x: Setting)
      requires Valid()
      modifies this`settings
      ensures settings == old(settings) + [x]
      ensures SetAll(NewFunction(name), settings) == Set(data, x)
    {
      settings := settings + [x];
      assert settings[..|settings| - 1] == old(settings);
    }

    method Args(raw: Bytes)
      requires Valid()
      modifies this
      ensures Valid() && settings == old(settings) + [SetArgs(raw)]
    {
      Note(SetArgs(raw));
      if data.args.Err? { return; }
      data := data.(args := Ok(raw));
    }

    method ArgsJson(json: Result<Bytes, nat>)
      requires Valid()
      modifies this
      ensures Valid() && settings == old(settings) + [SetArgsJson(json)]
    {
      Note(SetArgsJson(json));
      match json
      case Ok(bytes) => data := data.(args := Ok(bytes));
      case Err(e) => data := data.(args := Err(Serialization(e)));
    }

    method ArgsBorsh(borsh: Result<Bytes, nat>)
      requires Valid()
      modifies this
      ensures Valid() && settings == old(settings) + [SetArgsBorsh(borsh)]
    {
      Note(SetArgsBorsh(borsh));
      match borsh
      case Ok(bytes) => data := data.(args := Ok(bytes));
      case Err(e) => data := data.(args := Err(Io(e)));
    }

    method Deposit(deposit: nat)
      requires Valid()
      modifies this
      ensures Valid() && settings == old(settings) + [SetDeposit(deposit)]
    {
      Note(SetDeposit(deposit));
      data := data.(deposit := deposit);
    }

    method Gas(gas: nat)
      requires Valid()
      modifies this
      ensures Valid() && settings == old(settings) + [SetGas(gas)]
    {
      Note(SetGas(gas));
      data := data.(gas := gas);
    }

    method MaxGas()
      requires Valid()
      modifies this
      ensures Valid() && settings == old(settings) + [SetMaxGas]
    {
      Note(SetMaxGas);
      data := data.(gas := MAX_GAS);
    }
  }

  // ----- A batch -----

  /** A call of the builder: either a call with a function, or an action that cannot fail. */
  datatype Request = Call(called: FunctionData) | Push(action: Action)

  /** The error a request carries into the batch. */
  predicate Fails(r: Request) { r.Call? && r.called.args.Err? }

  function ActionOf(r: Request): Action
    requires !Fails(r)
  {
    match r
    case Call(f) => FunctionCall(IntoAction(f).value)
    case Push(a) => a
  }

  /** One request on what has been built so far. */
  function Add(built: Result<seq<Action>, Error>, r: Request): Result<seq<Action>, Error> {
    if Fails(r) then Err(r.called.args.error)
    else match built case Ok(actions) => Ok(actions + [ActionOf(r)]) case Err(e) => Err(e)
  }

  function Build(rs: seq<Request>): Result<seq<Action>, Error> {
    if rs == [] then Ok([]) else Add(Build(rs[..|rs| - 1]), rs[|rs| - 1])
  }

  /** The last call of a batch whose arguments are missing. */
  predicate LastFailure(rs: seq<Request>, i: int) {
    0 <= i < |rs| && Fails(rs[i]) && forall j :: i < j < |rs| ==> !Fails(rs[j])
  }

  /** The action is what the request asks for: for a call its name, arguments, gas and deposit. */
  predicate Asks(r: Request, a: Action) {
    match r
    case Push(pushed) => a == pushed
    case Call(f) =>
      && a.FunctionCall? && a.call.methodName == f.name && Ok(a.call.args) == f.args
      && a.call.gas == f.gas && a.call.deposit == f.deposit
  }

  /** The batch holds exactly the actions asked for, in their order. */
  predicate AsksAll(rs: seq<Request>, actions: seq<Action>) {
    |actions| == |rs| && forall i :: 0 <= i < |rs| ==> Asks(rs[i], actions[i])
  }

  /** A batch is Ok exactly when every call in it had its arguments, and then holds exactly the actions
      asked for in their order; otherwise it is the error of the last call that failed. */
  lemma {:induction false} BatchMeaning(rs: seq<Request>)
    ensures Build(rs).Ok? <==> forall i :: 0 <= i < |rs| ==> !Fails(rs[i])
    ensures Build(rs).Ok? ==> AsksAll(rs, Build(rs).value)
    ensures Build(rs).Err? ==> exists i :: LastFailure(rs, i) && Build(rs).error == rs[i].called.args.error
    decreases |rs|
  {
    if rs != [] {
      var init, last := rs[..|rs| - 1], rs[|rs| - 1];
      BatchMeaning(init);
      if Fails(last) {
        assert LastFailure(rs, |rs| - 1);
      } else if Build(init).Err? {
        var i :| LastFailure(init, i) && Build(init).error == init[i].called.args.error;
        assert LastFailure(rs, i);
      }
    }
  }

  /** From what the user says about a call to the action that the batch sends for it. */
  lemma CallSends(rs: seq<Request>, i: nat, name: string, xs: seq<Setting>)
    requires i < |rs| && rs[i] == Call(SetAll(NewFunction(name), xs)) && Build(rs).Ok?
    ensures i < |Build(rs).value| && Build(rs).value[i].FunctionCall?
    ensures var call := Build(rs).value[i].call;
      && call.methodName == name
      && (Unset(xs, DepositField) ==> call.deposit == 0)
      && (forall k :: LastSetter(xs, k, DepositField) ==> call.deposit == xs[k].deposit)
      && (Unset(xs, GasField) ==> call.gas == 10_000_000_000_000)
      && (forall k :: LastSetter(xs, k, GasField) ==>
            call.gas == if xs[k].SetMaxGas? then 300_000_000_000_000 else xs[k].gas)
      && (Unset(xs, ArgsField) ==> call.args == [])
      && (forall k :: LastSetter(xs, k, ArgsField) ==>
            if xs[k].SetArgs? then call.args == xs[k].raw else Leaves(xs[k], Ok(call.args)))
  {
    hide SetAll, Build, Unset;
    BatchMeaning(rs);
    assert Asks(rs[i], Build(rs).value[i]);
    DepositDecided(name, xs);
    GasDecided(name, xs);
    ArgsDecided(name, xs);
  }

  /** The action list of a single function call sent on its own. */
  function SingleCall(f: FunctionData): Result<seq<Action>, Error> {
    match IntoAction(f)
    case Ok(action) => Ok([FunctionCall(action)])
    case Err(e) => Err(e)
  }

  /** A call sent on its own and a batch of it send the same, which is what was asked for. */
  lemma OneCallBatch(f: FunctionData)
    ensures Build([Call(f)]) == SingleCall(f)
    ensures SingleCall(f).Ok? <==> f.args.Ok?
    ensures if SingleCall(f).Ok? then AsksAll([Call(f)], SingleCall(f).value) else SingleCall(f).error == f.args.error
  {
    assert Build([Call(f)]) == Add(Build([Call(f)][..0]), Call(f)) == Add(Ok([]), Call(f));
    if IntoAction(f).Ok? { assert [] + [FunctionCall(IntoAction(f).value)] == [FunctionCall(IntoAction(f).value)]; }
  }

  class Transaction {
    var actions: Result<seq<Action>, Error>
    ghost var requests: seq<Request>   // the builder calls so far

    ghost predicate Valid()
      reads this
    {
      actions == Build(requests)
    }

    constructor ()
      ensures Valid() && requests == []
    {
      actions := Ok([]);
      requests := [];
    }

    method Push(action: Action)
      requires Valid()
      modifies this
      ensures Valid() && requests == old(requests) + [Request.Push(action)]
      ensures actions == if old(actions).Ok? then Ok(old(actions).value + [action]) else old(actions)
    {
      if actions.Ok? {
        actions := Ok(actions.value + [action]);
      }
      requests := requests + [Request.Push(action)];
      assert requests[..|requests| - 1] == old(requests);
    }

    method Call(called: FunctionData)
      requires Valid()
      modifies this
      ensures Valid() && requests == old(requests) + [Request.Call(called)]
      ensures called.args.Err? ==> actions == Err(called.args.error)
      ensures called.args.Ok? && old(actions).Err? ==> actions == old(actions)
      ensures called.args.Ok? && old(actions).Ok? ==>
        && actions.Ok? && |actions.value| == |old(actions).value| + 1 && old(actions).value <= actions.value
        && Asks(Request.Call(called), actions.value[|actions.value| - 1])
    {
      match called.args {
        case Err(err) =>
          actions := Err(err);
        case Ok(args) =>
          if actions.Ok? {
            var action := FunctionCallAction(called.name, args, called.gas, called.deposit);
            actions := Ok(actions.value + [FunctionCall(action)]);
          }
      }
      requests := requests + [Request.Call(called)];
      assert requests[..|requests| - 1] == old(requests);
    }

    method AddKey(pk: PublicKey, accessKey: nat)
      requires Valid()
      modifies this
      ensures Valid() && requests == old(requests) + [Request.Push(Action.AddKey(pk, accessKey))]
    {
      Push(Action.AddKey(pk, accessKey));
    }

    method CreateAccount()
      requires Valid()
      modifies this
      ensures Valid() && requests == old(requests) + [Request.Push(Action.CreateAccount)]
    {
      Push(Action.CreateAccount);
    }

    method DeleteAccount(beneficiary: AccountId)
      requires Valid()
      modifies this
      ensures Valid() && requests == old(requests) + [Request.Push(Action.DeleteAccount(beneficiary))]
    {
      Push(Action.DeleteAccount(beneficiary));
    }

    method DeleteKey(pk: PublicKey)
      requires Valid()
      modifies this
      ensures Valid() && requests == old(requests) + [Request.Push(Action.DeleteKey(pk))]
    {
      Push(Action.DeleteKey(pk));
    }

    method Deploy(code: Bytes)
      requires Valid()
      modifies this
      ensures Valid() && requests == old(requests) + [Request.Push(Action.DeployContract(code))]
    {
      Push(Action.DeployContract(code));
    }

    method Stake(amount: nat, pk: PublicKey)
      requires Valid()
      modifies this
      ensures Valid() && requests == old(requests) + [Request.Push(Action.Stake(amount, pk))]
    {
      Push(Action.Stake(amount, pk));
    }

    method Transfer(amount: nat)
      requires Valid()
      modifies this
      ensures Valid() && requests == old(requests) + [Request.Push(Action.Transfer(amount))]
    {
      Push(Action.Transfer(amount));
    }

    /** What is sent: the requested actions in order, or the error kept back. */
    method Transact() returns (r: Result<seq<Action>, Error>)
      requires Valid()
      ensures r == Build(requests)
      ensures r.Ok? <==> forall i :: 0 <= i < |requests| ==> !Fails(requests[i])
      ensures r.Ok? ==> AsksAll(requests, r.value)
      ensures r.Err? ==> exists i :: LastFailure(requests, i) && r.error == requests[i].called.args.error
    {
      BatchMeaning(requests);
      r := actions;
    }
  }
}
