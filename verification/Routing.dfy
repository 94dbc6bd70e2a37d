/**
 From a call's target to the one mailbox it is delivered to. What the services answer on
 the way (owners, leases, whether a peer is reachable) is an arbitrary environment, asked
 afresh at every node, so the results hold whatever the leases do meanwhile.
 */
module Routing {
  import opened Prelude
  import opened Text
  import opened Identity

  const QUEUE_CLASS := "__queue"
  const WORKFLOW_CLASS := "__workflow"

  // ---- Whose code an object runs ---------------------------------------------------------

  datatype Member = Events | Workflows | Queues | Databases | Objects

  datatype ScriptRow = ScriptRow(project: string, contract: map<Member, set<string>>)

  /** The scripts with their current contracts, and the directory of identities ever claimed. */
  datatype OwnerTables = OwnerTables(scripts: map<string, ScriptRow>, directory: map<ObjectKey, string>)

  datatype OwnerError = NoContract | NoOwner

  function MembersFor(className: string): Option<seq<Member>> {
    if className == QUEUE_CLASS then Some([Events, Queues])
    else if className == DATABASE_CLASS then Some([Databases])
    else if className == WORKFLOW_CLASS then Some([Workflows])
    else if "__" <= className then None
    else Some([Objects])
  }

  function Needle(m: Member, className: string, name: string): string {
    match m
    case Events => "queue:" + name
    case Workflows => Before(name, '/')
    case Queues => name
    case Databases => name
    case Objects => className
  }

  /** The script's contract names, in this member, what the key asks for. */
  predicate DeclaresIn(t: OwnerTables, script: string, key: ObjectKey, m: Member) {
    && script in t.scripts && t.scripts[script].project == key.scope
    && m in t.scripts[script].contract
    && Needle(m, key.className, key.name) in t.scripts[script].contract[m]
  }

  /** A script whose declaration outranks every member before it finds nobody. */
  ghost predicate ContractOwner(t: OwnerTables, key: ObjectKey, members: seq<Member>, script: string) {
    exists i :: 0 <= i < |members| && DeclaresIn(t, script, key, members[i]) &&
                forall j, other | 0 <= j < i :: !DeclaresIn(t, other, key, members[j])
  }

  ghost predicate Undeclared(t: OwnerTables, key: ObjectKey, members: seq<Member>) {
    forall j, other | 0 <= j < |members| :: !DeclaresIn(t, other, key, members[j])
  }

  /** The scripts `resolve_class_owner` may answer with for a project-scoped key. */
  ghost predicate ClassOwner(t: OwnerTables, key: ObjectKey, script: string) {
    && MembersFor(key.className).Some?
    && var members := MembersFor(key.className).value;
       || ContractOwner(t, key, members, script)
       || (Undeclared(t, key, members) && key in t.directory && t.directory[key] == script)
  }

  /** Among the declarers in the strongest member anybody declares it in, the one whose id comes first. */
  ghost predicate FirstDeclarer(t: OwnerTables, rank: string -> nat, key: ObjectKey, members: seq<Member>,
                                script: string)
  {
    exists i :: 0 <= i < |members| &&
                DeclaresIn(t, script, key, members[i]) && Undeclared(t, key, members[..i]) &&
                forall other | DeclaresIn(t, other, key, members[i]) :: rank(script) <= rank(other)
  }

  method LowestRanked(rank: string -> nat, scripts: set<string>) returns (lowest: string)
    requires scripts != {}
    ensures lowest in scripts && forall s | s in scripts :: rank(lowest) <= rank(s)
  {
    lowest :| lowest in scripts;
    var rest := scripts - {lowest};
    while rest != {}
      invariant lowest in scripts && rest <= scripts
      invariant forall s | s in scripts - rest :: rank(lowest) <= rank(s)
      decreases |rest|
    {
      var s :| s in rest;
      rest := rest - {s};
      if rank(s) < rank(lowest) {
        lowest := s;
      }
    }
  }

  /** Contracts in declaration-strength order, the lowest id among equals, the directory as the
      fallback; `rank` is the order of ids. */
  method ResolveClassOwner(t: OwnerTables, rank: string -> nat, key: ObjectKey) returns (r: Result<string, OwnerError>)
    ensures r.Success? ==> ClassOwner(t, key, r.value)
    ensures r.Success? && !Undeclared(t, key, MembersFor(key.className).value) ==>
              FirstDeclarer(t, rank, key, MembersFor(key.className).value, r.value)
    ensures r == Failure(NoContract) <==> MembersFor(key.className).None?
    ensures r == Failure(NoOwner) ==> Undeclared(t, key, MembersFor(key.className).value) && key !in t.directory
  {
    var members := MembersFor(key.className);
    if members.None? {
      return Failure(NoContract);
    }
    for i := 0 to |members.value|
      invariant forall j, other | 0 <= j < i :: !DeclaresIn(t, other, key, members.value[j])
    {
      var declarers := set s | s in t.scripts && DeclaresIn(t, s, key, members.value[i]);
      assert forall other :: DeclaresIn(t, other, key, members.value[i]) ==> other in declarers;
      if declarers != {} {
        var script := LowestRanked(rank, declarers);
        return Success(script);
      }
    }
    if key in t.directory {
      return Success(t.directory[key]);
    }
    return Failure(NoOwner);
  }

  /** Some script of the project has this text under this member of its contract. */
  predicate Has(t: OwnerTables, script: string, project: string, m: Member, text: string) {
    && script in t.scripts && t.scripts[script].project == project
    && m in t.scripts[script].contract && text in t.scripts[script].contract[m]
  }

  /** The directory's answer, for a key nobody declares. */
  predicate Remembered(t: OwnerTables, key: ObjectKey, script: string) {
    key in t.directory && t.directory[key] == script
  }

  /** The owner declares the text under this member if anybody does, and is the directory's if not. */
  ghost predicate OwnedThrough(t: OwnerTables, key: ObjectKey, script: string, m: Member, text: string) {
    if exists other :: Has(t, other, key.scope, m, text) then Has(t, script, key.scope, m, text)
    else Remembered(t, key, script)
  }

  lemma OwnedThroughOne(t: OwnerTables, key: ObjectKey, script: string, m: Member)
    requires ClassOwner(t, key, script) && MembersFor(key.className) == Some([m])
    ensures OwnedThrough(t, key, script, m, Needle(m, key.className, key.name))
  {
    if Undeclared(t, key, [m]) {
      forall other ensures !Has(t, other, key.scope, m, Needle(m, key.className, key.name)) {
        assert !DeclaresIn(t, other, key, [m][0]);
      }
    } else {
      assert DeclaresIn(t, script, key, m);
    }
  }

  lemma OwnedThroughTwo(t: OwnerTables, key: ObjectKey, script: string, m: Member, n: Member)
    requires ClassOwner(t, key, script) && MembersFor(key.className) == Some([m, n])
    ensures var first, second := Needle(m, key.className, key.name), Needle(n, key.className, key.name);
            if exists other :: Has(t, other, key.scope, m, first) then Has(t, script, key.scope, m, first)
            else OwnedThrough(t, key, script, n, second)
  {
    var first, second := Needle(m, key.className, key.name), Needle(n, key.className, key.name);
    if Undeclared(t, key, [m, n]) {
      forall other ensures !Has(t, other, key.scope, m, first) && !Has(t, other, key.scope, n, second) {
        assert !DeclaresIn(t, other, key, [m, n][0]) && !DeclaresIn(t, other, key, [m, n][1]);
      }
    } else {
      var i :| 0 <= i < 2 && DeclaresIn(t, script, key, [m, n][i]) &&
        forall j, other | 0 <= j < i :: !DeclaresIn(t, other, key, [m, n][j]);
      if i == 1 {
        forall other ensures !Has(t, other, key.scope, m, first) {
          assert !DeclaresIn(t, other, key, [m, n][0]);
        }
        assert Has(t, script, key.scope, n, second);
      } else {
        assert Has(t, script, key.scope, m, first);
      }
    }
  }

  /**
   Class by class, what the owner declares: a queue's consumer before any of its producers, a
   database by its name, a workflow by the part of its name before the slash, an object by its
   class; other platform classes have no owner here. The directory answers only where nobody
   declares.
   */
  lemma OwnersByClass(t: OwnerTables, key: ObjectKey, script: string)
    requires ClassOwner(t, key, script)
    ensures key.className == "__queue" ==>
              if exists other :: Has(t, other, key.scope, Events, "queue:" + key.name)
              then Has(t, script, key.scope, Events, "queue:" + key.name)
              else OwnedThrough(t, key, script, Queues, key.name)
    ensures key.className == "__database" ==> OwnedThrough(t, key, script, Databases, key.name)
    ensures key.className == "__workflow" ==> OwnedThrough(t, key, script, Workflows, Before(key.name, '/'))
    ensures !("__" <= key.className) ==> OwnedThrough(t, key, script, Objects, key.className)
    ensures "__" <= key.className ==>
              key.className == "__queue" || key.className == "__database" || key.className == "__workflow"
  {
    if key.className == "__queue" {
      OwnedThroughTwo(t, key, script, Events, Queues);
    } else if key.className == "__database" {
      OwnedThroughOne(t, key, script, Databases);
    } else if key.className == "__workflow" {
      OwnedThroughOne(t, key, script, Workflows);
    } else {
      OwnedThroughOne(t, key, script, Objects);
    }
  }

  /** A cron key's owner is the script its scope names; any other key's is resolved. The script must still exist. */
  ghost predicate OwnerAnswer(t: OwnerTables, key: ObjectKey, script: string) {
    script in t.scripts && if key.className == CRON_CLASS then script == key.scope else ClassOwner(t, key, script)
  }

  /** The scope rule, applied to the owner, gives back the key. */
  predicate OwnsKey(t: OwnerTables, key: ObjectKey, script: string) {
    script in t.scripts && Scoped(t.scripts[script].project, script, key.className, key.name) == key
  }

  ghost predicate DirectoryOk(t: OwnerTables) {
    forall key | key in t.directory && t.directory[key] in t.scripts :: OwnsKey(t, key, t.directory[key])
  }

  lemma OwnerOwnsKey(t: OwnerTables, key: ObjectKey, script: string)
    requires DirectoryOk(t) && OwnerAnswer(t, key, script)
    ensures OwnsKey(t, key, script)
  {
  }

  /** A claim records the owner it was told; the directory stays true to the scope rule. */
  lemma ClaimKeepsDirectory(t: OwnerTables, key: ObjectKey, script: string)
    requires DirectoryOk(t) && OwnerAnswer(t, key, script)
    ensures DirectoryOk(if key in t.directory then t else t.(directory := t.directory[key := script]))
  {
  }

  // ---- The directory over every run ------------------------------------------------------

  /** What owners have been resolved so far, beside the tables; a claim may come long after its answer. */
  datatype Ownership = Ownership(tables: OwnerTables, answered: set<(ObjectKey, string)>)

  datatype OwnerStep =
    | Publish(script: string, contract: map<Member, set<string>>)
    | Remove(script: string)
    | Resolve(key: ObjectKey, script: string)
    | Record(key: ObjectKey, script: string)

  /** A script stays in the project it was made in; a claim records an owner that was resolved. */
  ghost function OwnerApply(project: string -> string, o: Ownership, step: OwnerStep): Ownership {
    match step
    case Publish(s, contract) =>
      o.(tables := o.tables.(scripts := o.tables.scripts[s := ScriptRow(project(s), contract)]))
    case Remove(s) => o.(tables := o.tables.(scripts := o.tables.scripts - {s}))
    case Resolve(key, s) =>
      if OwnerAnswer(o.tables, key, s) then o.(answered := o.answered + {(key, s)}) else o
    case Record(key, s) =>
      if (key, s) !in o.answered || key in o.tables.directory then o
      else o.(tables := o.tables.(directory := o.tables.directory[key := s]))
  }

  ghost function OwnerRun(project: string -> string, steps: seq<OwnerStep>): Ownership {
    if steps == [] then Ownership(OwnerTables(map[], map[]), {})
    else OwnerApply(project, OwnerRun(project, steps[..|steps| - 1]), steps[|steps| - 1])
  }

  predicate Belongs(project: string -> string, key: ObjectKey, script: string) {
    Scoped(project(script), script, key.className, key.name) == key
  }

  ghost predicate OwnershipInv(project: string -> string, o: Ownership) {
    && (forall s | s in o.tables.scripts :: o.tables.scripts[s].project == project(s))
    && (forall key | key in o.tables.directory :: Belongs(project, key, o.tables.directory[key]))
    && (forall key, s | (key, s) in o.answered :: Belongs(project, key, s))
  }

  /** However scripts are published and removed and claims recorded, the directory stays true to the scope rule. */
  lemma {:induction false} DirectoryAlwaysOk(project: string -> string, steps: seq<OwnerStep>)
    ensures OwnershipInv(project, OwnerRun(project, steps)) && DirectoryOk(OwnerRun(project, steps).tables)
  {
    if steps != [] {
      var o, step := OwnerRun(project, steps[..|steps| - 1]), steps[|steps| - 1];
      DirectoryAlwaysOk(project, steps[..|steps| - 1]);
      if step.Resolve? && OwnerAnswer(o.tables, step.key, step.script) {
        OwnerOwnsKey(o.tables, step.key, step.script);
      }
    }
  }

  // ---- Routing -----------------------------------------------------------------------------

  type Node = nat

  datatype Script = Script(id: string, project: string)

  datatype Target = Target(
    className: string,
    name: string,
    action: string,
    args: seq<string>,
    chain: seq<string>,
    caller: Option<string>)

  datatype Placement = Local(accepts: bool) | Elsewhere(holder: Node) | Refused

  /** What one node hears when it asks: owners, the object's placement, a bypassed read, whether a peer answers. */
  datatype View = View(
    tables: OwnerTables,
    owner: ObjectKey -> Option<string>,
    placement: Placement,
    bypass: Option<string>,
    reaches: Node -> bool,   // the request arrives
    hears: Node -> bool)     // and so does its answer

  /** A node asked again on the second leg may hear something else. */
  type Env = (Node, bool) -> View

  datatype Delivery = Delivery(
    node: Node,
    key: ObjectKey,
    action: string,
    args: seq<string>,
    chain: seq<string>,
    caller: Option<string>)

  datatype RouteError = Reentrant | OwnerUnknown | NotResident | MayNotForward | Unreachable | Gone

  datatype Trace = Trace(hops: seq<(Node, Node)>, deliveries: seq<Delivery>, answer: Result<(), RouteError>)

  /** The wire form of a forwarded call. */
  datatype ObjectCall = ObjectCall(scope: string, className: string, name: string, action: string, args: seq<string>,
                                   chain: seq<string>, caller: Option<string>, firstHop: bool)

  function ExtendChain(chain: seq<string>, key: string): Option<seq<string>> {
    if key in chain then None else Some(chain + [key])
  }

  /** A chain that already ends in the target was extended by the sender of a forward. */
  function TargetChain(chain: seq<string>, key: string): Option<seq<string>> {
    if chain != [] && chain[|chain| - 1] == key then Some(chain) else ExtendChain(chain, key)
  }

  predicate BypassesMailbox(target: Target) {
    target.className == DATABASE_CLASS && (target.action == "read" || target.action == "read_one")
  }

  function Failed(error: RouteError): Trace {
    Trace([], [], Failure(error))
  }

  /** A forward carries the key's scope, the extended chain and no further hop. */
  function Forwarded(key: ObjectKey, target: Target, chain: seq<string>): ObjectCall {
    ObjectCall(key.scope, target.className, target.name, target.action, target.args, chain, target.caller, false)
  }

  function RouteInner(env: Env, node: Node, ctx: Script, target: Target, allowForward: bool): Trace
    decreases allowForward, 0
  {
    var view := env(node, allowForward);
    var key := Scoped(ctx.project, ctx.id, target.className, target.name);
    if BypassesMailbox(target) && view.bypass.Some? then Trace([], [], Success(()))
    else
      match TargetChain(target.chain, Print(key))
      case None => Failed(Reentrant)
      case Some(chain) =>
        if view.owner(key).None? then Failed(OwnerUnknown)
        else
          match view.placement
          case Local(accepts) =>
            if accepts then
              Trace([], [Delivery(node, key, target.action, target.args, chain, target.caller)], Success(()))
            else Failed(Gone)
          case Elsewhere(holder) =>
            if !allowForward then Failed(MayNotForward)
            else if !view.reaches(holder) then Failed(Unreachable)
            else
              var far := Dispatch(env, holder, Forwarded(key, target, chain));
              Trace([(node, holder)] + far.hops, far.deliveries,
                    if view.hears(holder) then far.answer else Failure(Unreachable))
          case Refused => Failed(NotResident)
  }

  /** The receiving end: the key as sent, its owner resolved here, the chain taken as it is. */
  function Dispatch(env: Env, node: Node, call: ObjectCall): Trace
    decreases call.firstHop, 1
  {
    var view := env(node, call.firstHop);
    var key := ObjectKey(call.scope, call.className, call.name);
    match view.owner(key)
    case None => Failed(OwnerUnknown)
    case Some(script) =>
      if script !in view.tables.scripts then Failed(OwnerUnknown)
      else
        var owner := Script(script, view.tables.scripts[script].project);
        var target := Target(call.className, call.name, call.action, call.args, call.chain, call.caller);
        RouteInner(env, node, owner, target, call.firstHop)
  }

  ghost predicate ViewOk(view: View) {
    && DirectoryOk(view.tables)
    && forall key | view.owner(key).Some? :: OwnerAnswer(view.tables, key, view.owner(key).value)
  }

  ghost predicate EnvOk(env: Env) {
    forall node, first :: ViewOk(env(node, first))
  }

  lemma SpentHopStays(env: Env, node: Node, call: ObjectCall)
    requires !call.firstHop
    ensures var t := Dispatch(env, node, call);
            t.hops == [] && |t.deliveries| <= 1 && forall d | d in t.deliveries :: d.node == node
  {
  }

  /** Whatever every service answers, a call crosses at most one node boundary and reaches at most one mailbox, once. */
  lemma RoutedAtMostOnce(env: Env, node: Node, ctx: Script, target: Target, allowForward: bool)
    ensures var t := RouteInner(env, node, ctx, target, allowForward);
            && |t.hops| <= (if allowForward then 1 else 0)
            && |t.deliveries| <= 1
            && (t.deliveries != [] ==> t.deliveries[0].node == if t.hops == [] then node else t.hops[0].1)
            && (t.answer.Success? && t.deliveries == [] ==>
                  target.className == "__database" && (target.action == "read" || target.action == "read_one"))
  {
    var view := env(node, allowForward);
    var key := Scoped(ctx.project, ctx.id, target.className, target.name);
    if allowForward && view.placement.Elsewhere? && TargetChain(target.chain, Print(key)).Some? {
      var chain := TargetChain(target.chain, Print(key)).value;
      SpentHopStays(env, view.placement.holder, Forwarded(key, target, chain));
    }
  }

  predicate NoDuplicates(chain: seq<string>) {
    forall i, j | 0 <= i < j < |chain| :: chain[i] != chain[j]
  }

  lemma TargetChainClean(chain: seq<string>, key: string)
    requires NoDuplicates(chain) && TargetChain(chain, key).Some?
    ensures var c := TargetChain(chain, key).value;
            NoDuplicates(c) && c != [] && c[|c| - 1] == key && TargetChain(c, key) == Some(c)
  {
  }

  /**
   The mailbox that is reached, here or one hop away, is the sender's own key's, with the
   call's arguments and caller unchanged and the chain the sender extended; a target already
   on the stack below its top is delivered nowhere.
   */
  lemma DeliveredAsSent(env: Env, node: Node, ctx: Script, target: Target, allowForward: bool)
    requires EnvOk(env)
    ensures var key := Scoped(ctx.project, ctx.id, target.className, target.name);
            var chain := TargetChain(target.chain, Print(key));
            var t := RouteInner(env, node, ctx, target, allowForward);
            && (chain.None? ==> t.deliveries == [])
            && forall d | d in t.deliveries ::
                 && d.key == key && d.action == target.action && d.args == target.args && d.caller == target.caller
                 && chain == Some(d.chain)
  {
    var view := env(node, allowForward);
    var key := Scoped(ctx.project, ctx.id, target.className, target.name);
    if allowForward && view.placement.Elsewhere? && TargetChain(target.chain, Print(key)).Some? {
      var chain := TargetChain(target.chain, Print(key)).value;
      ReceiverRebuilds(env, view.placement.holder, ctx, target, chain);
    }
  }

  /** The receiver of a forward computes the sender's key again and keeps the sender's chain. */
  lemma ReceiverRebuilds(env: Env, holder: Node, ctx: Script, target: Target, chain: seq<string>)
    requires EnvOk(env)
    requires var key := Scoped(ctx.project, ctx.id, target.className, target.name);
             chain != [] && chain[|chain| - 1] == Print(key)
    ensures var key := Scoped(ctx.project, ctx.id, target.className, target.name);
            var t := Dispatch(env, holder, Forwarded(key, target, chain));
            t.hops == [] && forall d | d in t.deliveries ::
              d == Delivery(holder, key, target.action, target.args, chain, target.caller)
  {
  }

  // ---- What is delivered, exactly --------------------------------------------------------

  /** The target is on the stack, and not just as the top a forward has already put there. */
  predicate Reenters(chain: seq<string>, key: string) {
    key in chain && chain[|chain| - 1] != key
  }

  /** The stack as the target will see it. */
  function Stacked(chain: seq<string>, key: string): seq<string> {
    if key in chain then chain else chain + [key]
  }

  /** The call gets as far as the object's placement at a node that hears this. */
  predicate Admitted(view: View, target: Target, key: ObjectKey) {
    && view.owner(key).Some?
    && !(view.bypass.Some? && target.className == "__database" &&
         (target.action == "read" || target.action == "read_one"))
  }

  /** An open mailbox here. */
  predicate OpenHere(view: View, target: Target, key: ObjectKey) {
    Admitted(view, target, key) && view.placement == Local(true)
  }

  /** An open mailbox one hop away, reached. */
  predicate OpenThere(env: Env, node: Node, target: Target, key: ObjectKey) {
    var view := env(node, true);
    && Admitted(view, target, key) && view.placement.Elsewhere? && view.reaches(view.placement.holder)
    && OpenHere(env(view.placement.holder, false), target, key)
  }

  /** A call to an object whose mailbox is open here reaches it, once, with the stack it came with and itself on top. */
  lemma DeliveredHere(env: Env, node: Node, ctx: Script, target: Target, allowForward: bool)
    requires var key := Scoped(ctx.project, ctx.id, target.className, target.name);
             !Reenters(target.chain, Print(key)) && OpenHere(env(node, allowForward), target, key)
    ensures var key := Scoped(ctx.project, ctx.id, target.className, target.name);
            var chain := Stacked(target.chain, Print(key));
            RouteInner(env, node, ctx, target, allowForward)
            == Trace([], [Delivery(node, key, target.action, target.args, chain, target.caller)], Success(()))
  {
  }

  /** A call to an object whose mailbox is open on the node that holds it reaches it there, over one hop. */
  lemma DeliveredThere(env: Env, node: Node, ctx: Script, target: Target)
    requires EnvOk(env)
    requires var key := Scoped(ctx.project, ctx.id, target.className, target.name);
             !Reenters(target.chain, Print(key)) && OpenThere(env, node, target, key)
    ensures var key := Scoped(ctx.project, ctx.id, target.className, target.name);
            var chain := Stacked(target.chain, Print(key));
            var holder := env(node, true).placement.holder;
            RouteInner(env, node, ctx, target, true)
            == Trace([(node, holder)], [Delivery(holder, key, target.action, target.args, chain, target.caller)],
                     if env(node, true).hears(holder) then Success(()) else Failure(Unreachable))
  {
    var key := Scoped(ctx.project, ctx.id, target.className, target.name);
    var chain := Stacked(target.chain, Print(key));
    FarDelivery(env, env(node, true).placement.holder, ctx, target, chain);
  }

  lemma FarDelivery(env: Env, holder: Node, ctx: Script, target: Target, chain: seq<string>)
    requires EnvOk(env)
    requires var key := Scoped(ctx.project, ctx.id, target.className, target.name);
             chain != [] && chain[|chain| - 1] == Print(key) && OpenHere(env(holder, false), target, key)
    ensures var key := Scoped(ctx.project, ctx.id, target.className, target.name);
            Dispatch(env, holder, Forwarded(key, target, chain))
            == Trace([], [Delivery(holder, key, target.action, target.args, chain, target.caller)], Success(()))
  {
    var key := Scoped(ctx.project, ctx.id, target.className, target.name);
    var view := env(holder, false);
    assert ViewOk(view);
    OwnerOwnsKey(view.tables, key, view.owner(key).value);
  }

  /** A call is delivered if and only if it does not re-enter its stack and finds an open mailbox,
      here or, where it may still be forwarded, on the holder it reaches. */
  lemma DeliveredExactly(env: Env, node: Node, ctx: Script, target: Target, allowForward: bool)
    requires EnvOk(env)
    ensures var key := Scoped(ctx.project, ctx.id, target.className, target.name);
            RouteInner(env, node, ctx, target, allowForward).deliveries != [] <==>
            && !Reenters(target.chain, Print(key))
            && (OpenHere(env(node, allowForward), target, key) || (allowForward && OpenThere(env, node, target, key)))
  {
    var key := Scoped(ctx.project, ctx.id, target.className, target.name);
    if !Reenters(target.chain, Print(key)) && allowForward && OpenThere(env, node, target, key) {
      DeliveredThere(env, node, ctx, target);
    } else if allowForward && env(node, true).placement.Elsewhere? && !Reenters(target.chain, Print(key)) {
      FarRefusal(env, env(node, true).placement.holder, ctx, target, Stacked(target.chain, Print(key)));
    }
  }

  lemma FarRefusal(env: Env, holder: Node, ctx: Script, target: Target, chain: seq<string>)
    requires EnvOk(env)
    ensures var key := Scoped(ctx.project, ctx.id, target.className, target.name);
            !OpenHere(env(holder, false), target, key) ==>
              Dispatch(env, holder, Forwarded(key, target, chain)).deliveries == []
  {
    var key := Scoped(ctx.project, ctx.id, target.className, target.name);
    var view := env(holder, false);
    assert ViewOk(view);
    if view.owner(key).Some? {
      OwnerOwnsKey(view.tables, key, view.owner(key).value);
    }
  }

  /** Why a call that was let in is not delivered here: its own stack, a closed mailbox, or one hop too many. */
  lemma RefusalsAreNamed(env: Env, node: Node, ctx: Script, target: Target, allowForward: bool)
    requires var key := Scoped(ctx.project, ctx.id, target.className, target.name);
             Admitted(env(node, allowForward), target, key)
    ensures var key := Scoped(ctx.project, ctx.id, target.className, target.name);
            var view := env(node, allowForward);
            var answer := RouteInner(env, node, ctx, target, allowForward).answer;
            && (Reenters(target.chain, Print(key)) ==> answer == Failure(Reentrant))
            && (!Reenters(target.chain, Print(key)) ==>
                  && (view.placement == Local(false) ==> answer == Failure(Gone))
                  && (view.placement == Refused ==> answer == Failure(NotResident))
                  && (view.placement.Elsewhere? && !allowForward ==> answer == Failure(MayNotForward))
                  && (view.placement.Elsewhere? && allowForward && !view.reaches(view.placement.holder) ==>
                        answer == Failure(Unreachable)))
  {
  }

  /** The stack a target sees is the one its call came with, itself on top, and nothing dropped. */
  lemma DeliveredChain(env: Env, node: Node, ctx: Script, target: Target, allowForward: bool)
    requires EnvOk(env)
    ensures var key := Print(Scoped(ctx.project, ctx.id, target.className, target.name));
            var t := RouteInner(env, node, ctx, target, allowForward);
            && (key in target.chain && target.chain[|target.chain| - 1] != key ==> t.deliveries == [])
            && forall d | d in t.deliveries ::
                 if target.chain != [] && target.chain[|target.chain| - 1] == key then d.chain == target.chain
                 else d.chain == target.chain + [key]
  {
    DeliveredAsSent(env, node, ctx, target, allowForward);
  }

  // ---- Calls that lead to calls --------------------------------------------------------------

  datatype Routed = Routed(env: Env, node: Node, ctx: Script, target: Target, allowForward: bool)

  function Deliveries(r: Routed): seq<Delivery> {
    RouteInner(r.env, r.node, r.ctx, r.target, r.allowForward).deliveries
  }

  /** A call starts its own chain, as a request or an alarm does, or continues one it was delivered on. */
  ghost predicate Continues(calls: seq<Routed>, i: nat)
    requires i < |calls|
  {
    || |calls[i].target.chain| <= 1
    || exists j, d :: 0 <= j < i && d in Deliveries(calls[j]) && calls[i].target.chain == d.chain
  }

  /** However calls nest and wherever they run, every delivered chain is free of duplicates, ends in
      its own target, and holds all of the chain it continues: no object on the stack is entered again. */
  lemma {:induction false} ChainsStayClean(calls: seq<Routed>, i: nat)
    requires i < |calls| && forall k | 0 <= k < |calls| :: EnvOk(calls[k].env) && Continues(calls, k)
    ensures forall d | d in Deliveries(calls[i]) ::
              && NoDuplicates(d.chain) && d.chain != [] && d.chain[|d.chain| - 1] == Print(d.key)
              && calls[i].target.chain <= d.chain && |d.chain| <= |calls[i].target.chain| + 1
    decreases i
  {
    var r := calls[i];
    assert Continues(calls, i);
    if |r.target.chain| > 1 {
      var j, d :| 0 <= j < i && d in Deliveries(calls[j]) && r.target.chain == d.chain;
      ChainsStayClean(calls, j);
    }
    assert NoDuplicates(r.target.chain);
    DeliveredAsSent(r.env, r.node, r.ctx, r.target, r.allowForward);
    DeliveredChain(r.env, r.node, r.ctx, r.target, r.allowForward);
    var key := Print(Scoped(r.ctx.project, r.ctx.id, r.target.className, r.target.name));
    if TargetChain(r.target.chain, key).Some? {
      TargetChainClean(r.target.chain, key);
    }
  }
}
