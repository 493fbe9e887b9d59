/** RestoreGates: what a restore reconcile puts in place before the pipeline: the target namespace, the credentials
    copy, and the Job's service account with its two bindings. Each is created if missing and then left alone. */
module RestoreGates {
  import opened Wrappers
  import opened Reads
  import opened Credentials
  import opened RestoreSpec
  import opened RestoreReaping
  import RestoreQuiescence

  datatype Namespace = Missing | Usable | Terminating
  datatype Object = TheNamespace | TheSecret | TheServiceAccount | TheRoleBinding | TheClusterRoleBinding

  // The objects of the target namespace a restore provisions, and the writes made to them, in order.
  datatype Target = Target(namespace: Namespace, secret: Option<Secret>, rbac: set<Object>, log: seq<Object>)

  datatype Repo = RepoFails | RepoAbsent | RepoFound(ready: bool)
  // Reads of the objects in `missed` show nothing though they exist; creating them then answers AlreadyExists.
  datatype Answers = Answers(repo: Repo, source: Source, getFails: set<Object>, missed: set<Object>, writeFails: set<Object>)

  const RBAC: seq<Object> := [TheServiceAccount, TheRoleBinding, TheClusterRoleBinding]

  const REPO_NOT_FOUND := Held(GateReason("RepoNotReady"), GateMessage("not found"))
  const REPO_NOT_READY := Held(GateReason("RepoNotReady"), GateMessage("not Ready"))
  const TERMINATING := Held(GateReason("TargetNamespaceTerminating"), GateMessage("terminating"))
  const SOURCE_ABSENT := Held(GateReason("SecretCopyFailed"), GateMessage("repo secret not found"))

  // ---- one object after the other -----------------------------------------------------------------------

  function NamespaceSeen(t: Target, a: Answers): Namespace {
    if TheNamespace in a.missed then Missing else t.namespace
  }

  function NamespaceGate(t: Target, a: Answers): Gate {
    if TheNamespace in a.getFails then Unreachable
    else match NamespaceSeen(t, a)
      case Terminating => TERMINATING
      case Usable => Open
      case Missing => if TheNamespace in a.writeFails then Unreachable else Open
  }

  function WithNamespace(t: Target, a: Answers): Target {
    if NamespaceGate(t, a).Open? && t.namespace.Missing?
    then t.(namespace := Usable, log := t.log + [TheNamespace]) else t
  }

  function SecretSeen(t: Target, a: Answers): Option<Secret> {
    Seen(t.secret, TheSecret in a.missed)
  }

  function SecretGate(t: Target, a: Answers): Gate {
    match a.source
    case SourceFails => Unreachable
    case SourceAbsent => SOURCE_ABSENT
    case Source(data) =>
      if TheSecret in a.getFails then Unreachable
      else if CopyCurrent(SecretSeen(t, a), ContractData(data)) then Open
      else if TheSecret in a.writeFails then Unreachable
      else Open
  }

  function WithSecret(t: Target, a: Answers): Target {
    if !SecretGate(t, a).Open? || CopyCurrent(SecretSeen(t, a), ContractData(a.source.data))
       || Taken(t.secret, TheSecret in a.missed)
    then t
    else t.(secret := Some(Secret(ContractData(a.source.data), true)), log := t.log + [TheSecret])
  }

  predicate CanProvide(t: Target, a: Answers, o: Object) {
    o !in a.getFails && ((o in t.rbac && o !in a.missed) || o !in a.writeFails)
  }

  // The first object that can neither be found nor created stops.
  function WithRBAC(t: Target, a: Answers, objects: seq<Object>): Target
    decreases |objects|
  {
    if objects == [] || !CanProvide(t, a, objects[0]) then t
    else if objects[0] in t.rbac then WithRBAC(t, a, objects[1..])
    else WithRBAC(t.(rbac := t.rbac + {objects[0]}, log := t.log + [objects[0]]), a, objects[1..])
  }

  predicate ProvidesAll(t: Target, a: Answers, objects: seq<Object>) {
    forall o | o in objects :: CanProvide(t, a, o)
  }

  function RepoGate(a: Answers): Gate {
    match a.repo
    case RepoFails => Unreachable
    case RepoAbsent => REPO_NOT_FOUND
    case RepoFound(ready) => if ready then Open else REPO_NOT_READY
  }

  function GateOf(t: Target, a: Answers): Gate {
    if !RepoGate(a).Open? then RepoGate(a)
    else if !NamespaceGate(t, a).Open? then NamespaceGate(t, a)
    else if !SecretGate(t, a).Open? then SecretGate(t, a)
    else if ProvidesAll(t, a, RBAC) then Open
    else Unreachable
  }

  function Provisioned(t: Target, a: Answers): Target {
    if !RepoGate(a).Open? || !NamespaceGate(t, a).Open? then t
    else
      var t1 := WithNamespace(t, a);
      if !SecretGate(t, a).Open? then t1 else WithRBAC(WithSecret(t1, a), a, RBAC)
  }

  // ---- the controller's methods ---------------------------------------------------------------------------

  lemma {:induction false} ProvidesRBAC(t: Target, a: Answers, objects: seq<Object>)
    ensures WithRBAC(t, a, objects).(rbac := t.rbac, log := t.log) == t && t.rbac <= WithRBAC(t, a, objects).rbac
    ensures ProvidesAll(t, a, objects) ==> forall o | o in objects :: o in WithRBAC(t, a, objects).rbac
    decreases |objects|
  {
    if objects != [] && CanProvide(t, a, objects[0]) {
      var next := if objects[0] in t.rbac then t else t.(rbac := t.rbac + {objects[0]}, log := t.log + [objects[0]]);
      assert objects == [objects[0]] + objects[1..];
      ProvidesRBAC(next, a, objects[1..]);
      if ProvidesAll(t, a, objects) {
        forall o | o in objects[1..] ensures CanProvide(next, a, o) { assert CanProvide(t, a, o); }
        assert objects[0] in next.rbac;
      }
    }
  }

  class Provisioner {
    var namespace: Namespace
    var secret: Option<Secret>
    var rbac: set<Object>
    var log: seq<Object>

    function State(): Target
      reads this
    {
      Target(namespace, secret, rbac, log)
    }

    method EnsureTargetNamespace(a: Answers) returns (gate: Gate)
      modifies this
      ensures gate == NamespaceGate(old(State()), a) && State() == WithNamespace(old(State()), a)
    {
      if TheNamespace in a.getFails {
        return Unreachable;
      }
      var seen := NamespaceSeen(State(), a);
      if seen.Terminating? {
        return TERMINATING;
      }
      if seen.Missing? {
        if TheNamespace in a.writeFails {
          return Unreachable;
        }
        if namespace.Missing? { // otherwise AlreadyExists
          namespace := Usable;
          log := log + [TheNamespace];
        }
      }
      return Open;
    }

    method EnsureRepoSecret(a: Answers) returns (gate: Gate)
      modifies this
      ensures gate == SecretGate(old(State()), a) && State() == WithSecret(old(State()), a)
    {
      if a.source.SourceFails? {
        return Unreachable;
      }
      if a.source.SourceAbsent? {
        return SOURCE_ABSENT;
      }
      var data := ContractData(a.source.data);
      if TheSecret in a.getFails {
        return Unreachable;
      }
      var existing := Seen(secret, TheSecret in a.missed);
      if existing.Some? && ContractEqual(existing.value.data, data) && existing.value.managed {
        return Open;
      }
      if TheSecret in a.writeFails {
        return Unreachable;
      }
      if existing.None? && secret.Some? {
        return Open; // AlreadyExists
      }
      secret := Some(Secret(data, true));
      log := log + [TheSecret];
      return Open;
    }

    method EnsureJobRBAC(a: Answers) returns (ok: bool)
      modifies this
      ensures State() == WithRBAC(old(State()), a, RBAC)
      ensures ok == ProvidesAll(old(State()), a, RBAC)
    {
      for i := 0 to |RBAC|
        invariant WithRBAC(State(), a, RBAC[i..]) == WithRBAC(old(State()), a, RBAC)
        invariant forall k | 0 <= k < i :: CanProvide(old(State()), a, RBAC[k])
        invariant forall k | i <= k < |RBAC| :: RBAC[k] in rbac <==> RBAC[k] in old(rbac)
      {
        var o := RBAC[i];
        assert RBAC[i..][0] == o && RBAC[i..][1..] == RBAC[i + 1..];
        if o in a.getFails {
          assert o in RBAC;
          return false;
        }
        if o !in rbac || o in a.missed {
          if o in a.writeFails {
            assert o in RBAC;
            return false;
          }
          if o !in rbac { // otherwise AlreadyExists
            rbac := rbac + {o};
            log := log + [o];
          }
        }
      }
      return true;
    }

    method PassGates(a: Answers) returns (gate: Gate)
      modifies this
      ensures gate == GateOf(old(State()), a) && State() == Provisioned(old(State()), a)
    {
      if a.repo.RepoFails? {
        return Unreachable;
      }
      if a.repo.RepoAbsent? {
        return REPO_NOT_FOUND;
      }
      if !a.repo.ready {
        return REPO_NOT_READY;
      }
      gate := EnsureTargetNamespace(a);
      if !gate.Open? {
        return;
      }
      gate := EnsureRepoSecret(a);
      if !gate.Open? {
        return;
      }
      var ok := EnsureJobRBAC(a);
      return if ok then Open else Unreachable;
    }
  }

  // ---- passing the gates again ---------------------------------------------------------------------------

  lemma {:induction false} NothingMoreToProvide(t: Target, a: Answers, objects: seq<Object>)
    requires forall o | o in objects :: o in t.rbac
    ensures WithRBAC(t, a, objects) == t
  {
    if objects != [] && CanProvide(t, a, objects[0]) {
      assert objects[0] in objects;
      NothingMoreToProvide(t, a, objects[1..]);
    }
  }

  lemma SecretAgain(t: Target, a: Answers)
    requires SecretGate(t, a).Open?
    ensures SecretGate(WithSecret(t, a), a).Open? && WithSecret(WithSecret(t, a), a) == WithSecret(t, a)
  {
  }

  // The gates see the namespace, the secret and the rest separately.
  lemma SeesSecret(t: Target, u: Target, a: Answers)
    requires t.secret == u.secret
    ensures SecretGate(t, a) == SecretGate(u, a)
    ensures WithSecret(t, a) == t ==> WithSecret(u, a) == u
  {
  }

  lemma NamespaceAgain(t: Target, u: Target, a: Answers)
    requires NamespaceGate(t, a).Open? && u.namespace == WithNamespace(t, a).namespace
    ensures NamespaceGate(u, a).Open? && WithNamespace(u, a) == u
  {
  }

  // A provisioned target that met no error answers the same gate again, and nothing more is written.
  lemma GatesSettle(t: Target, a: Answers)
    requires !GateOf(t, a).Unreachable?
    ensures GateOf(Provisioned(t, a), a) == GateOf(t, a)
    ensures Provisioned(Provisioned(t, a), a) == Provisioned(t, a)
  {
    if RepoGate(a).Open? && NamespaceGate(t, a).Open? {
      var end := Provisioned(t, a);
      var t1 := WithNamespace(t, a);
      SeesSecret(t, t1, a);
      if SecretGate(t, a).Open? {
        var t2 := WithSecret(t1, a);
        SecretAgain(t1, a);
        assert ProvidesAll(t2, a, RBAC);
        ProvidesRBAC(t2, a, RBAC);
        NamespaceAgain(t, end, a);
        SeesSecret(t2, end, a);
        NothingMoreToProvide(end, a, RBAC);
        assert ProvidesAll(end, a, RBAC);
      } else {
        NamespaceAgain(t, t1, a);
      }
    }
  }

  // ---- what the gates ask and leave -------------------------------------------------------------------------

  // The object can be read, and is there or can be created.
  predicate Provides(a: Answers, there: bool, o: Object) {
    o !in a.getFails && (there || o !in a.writeFails)
  }

  // The namespace a read shows is not on its way out.
  predicate NamespaceStays(t: Target, a: Answers) {
    t.namespace != Terminating || TheNamespace in a.missed
  }

  predicate NamespaceThere(t: Target, a: Answers) {
    t.namespace == Usable && TheNamespace !in a.missed
  }

  ghost predicate SecretThere(t: Target, a: Answers) {
    TheSecret !in a.missed && t.secret.Some? && a.source.Source? && ReadsAs(t.secret.value, a.source.data)
  }

  // The repo is ready, the namespace stays, the credentials can be copied, and the three RBAC objects provided.
  ghost predicate AllOpen(t: Target, a: Answers) {
    && a.repo == RepoFound(true)
    && NamespaceStays(t, a) && Provides(a, NamespaceThere(t, a), TheNamespace)
    && a.source.Source? && Provides(a, SecretThere(t, a), TheSecret)
    && forall o | o == TheServiceAccount || o == TheRoleBinding || o == TheClusterRoleBinding ::
         Provides(a, o in t.rbac && o !in a.missed, o)
  }

  lemma SecretGateIs(t: Target, a: Answers)
    requires a.source.Source?
    ensures SecretGate(t, a) == if Provides(a, SecretThere(t, a), TheSecret) then Open else Unreachable
    ensures CopyCurrent(SecretSeen(t, a), ContractData(a.source.data)) <==> SecretThere(t, a)
  {
    CurrentExactly(SecretSeen(t, a), a.source.data);
  }

  lemma RBACIs(t: Target, a: Answers)
    ensures ProvidesAll(t, a, RBAC) <==>
              forall o | o == TheServiceAccount || o == TheRoleBinding || o == TheClusterRoleBinding ::
                Provides(a, o in t.rbac && o !in a.missed, o)
  {
    assert forall o :: o in RBAC <==> o == TheServiceAccount || o == TheRoleBinding || o == TheClusterRoleBinding;
    assert forall o :: CanProvide(t, a, o) <==> Provides(a, o in t.rbac && o !in a.missed, o);
  }

  /** The gates open if and only if all of this holds; the first that does not decides whether it is waited for, and as
      what, or an error. */
  lemma OpensExactly(t: Target, a: Answers)
    ensures GateOf(t, a).Open? <==> AllOpen(t, a)
    ensures a.repo.RepoAbsent? ==> GateOf(t, a) == Held(GateReason("RepoNotReady"), GateMessage("not found"))
    ensures a.repo == RepoFound(false) ==> GateOf(t, a) == Held(GateReason("RepoNotReady"), GateMessage("not Ready"))
    ensures a.repo == RepoFound(true) && TheNamespace !in a.getFails && !NamespaceStays(t, a) ==>
              GateOf(t, a) == Held(GateReason("TargetNamespaceTerminating"), GateMessage("terminating"))
    ensures a.repo == RepoFound(true) && NamespaceStays(t, a) && Provides(a, NamespaceThere(t, a), TheNamespace)
            && a.source.SourceAbsent? ==>
              GateOf(t, a) == Held(GateReason("SecretCopyFailed"), GateMessage("repo secret not found"))
    ensures GateOf(t, a).Held? ==>
              a.repo.RepoAbsent? || a.repo == RepoFound(false) || !NamespaceStays(t, a) || a.source.SourceAbsent?
  {
    RBACIs(t, a);
    if a.source.Source? { SecretGateIs(t, a); }
  }

  /** Past the gates everything the Jobs need is there: the namespace, the credentials, contract keys only, and the service
      account with both bindings. */
  lemma GatesProvide(t: Target, a: Answers)
    requires GateOf(t, a).Open?
    ensures var d := Provisioned(t, a);
            && d.namespace != Missing
            && TheServiceAccount in d.rbac && TheRoleBinding in d.rbac && TheClusterRoleBinding in d.rbac
            && a.source.Source? && d.secret.Some?
            && (TheSecret !in a.missed ==> ReadsAs(d.secret.value, a.source.data))
            && (d.secret != t.secret ==> OnlyCopied(d.secret.value, a.source.data))
  {
    OpensExactly(t, a);
    SecretGateIs(t, a);
    CopiesExactly(a.source.data);
    var t1 := WithNamespace(t, a);
    SeesSecret(t, t1, a);
    var t2 := WithSecret(t1, a);
    ProvidesRBAC(t2, a, RBAC);
    assert ProvidesAll(t2, a, RBAC);
    assert TheServiceAccount in RBAC && TheRoleBinding in RBAC && TheClusterRoleBinding in RBAC;
  }

  /** Quiescence of the whole reconcile: gates and pipeline together, run again on an unchanged cluster at a later time,
      write nothing. */
  lemma WholeReconcileQuiet(cfg: Config, t: Target, a: Answers, c: Cluster, env: Env, later: int)
    requires env.gate == GateOf(t, a) && !env.gate.Unreachable?
    requires Fresh(env) && !env.adoptFails && Orderly(cfg.name, c.status.jobs)
    requires Reconcile(cfg, c, c.status, env).1 != Errored
    ensures var t2 := Provisioned(t, a);
            && Provisioned(t2, a) == t2
            && var next := Next(cfg, c, Reconciles(env));
               Next(cfg, next, Reconciles(env.(now := later, gate := GateOf(t2, a)))) == next
  {
    GatesSettle(t, a);
    RestoreQuiescence.SecondReconcileDoesNothing(cfg, c, env, later);
    assert env.(now := later, gate := env.gate) == env.(now := later);
  }
}
