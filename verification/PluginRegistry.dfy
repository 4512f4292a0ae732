/**
 The plugin registry. Trigger and action capabilities are each kept three times over: by id, by
 "plugin:key", and as the set of ids of each plugin.
 */
module PluginRegistry {
  import opened Wrappers

  type Id = string

  datatype Ref = Ref(pluginId: Id, pluginName: string, capabilityId: Id, key: string)

  datatype Error = AlreadyRegistered(what: string) | NotRegistered(what: string)

  datatype State = State(byId: map<Id, Ref>, byKey: map<string, Ref>, perPlugin: map<string, set<Id>>)

  datatype Op = Register(r: Ref) | Remove(pluginName: string)

  function CapabilityKey(pluginName: string, key: string): string {
    pluginName + ":" + key
  }

  function KeyOf(r: Ref): string {
    CapabilityKey(r.pluginName, r.key)
  }

  function Empty(): State {
    State(map[], map[], map[])
  }

  function IdsOf(s: State, pluginName: string): set<Id> {
    if pluginName in s.perPlugin then s.perPlugin[pluginName] else {}
  }

  function Refusal(s: State, r: Ref): Option<Error> {
    if r.capabilityId in s.byId then Some(AlreadyRegistered(r.capabilityId))
    else if KeyOf(r) in s.byKey then Some(AlreadyRegistered(KeyOf(r)))
    else None
  }

  function RegisterStep(s: State, r: Ref): State {
    if Refusal(s, r).Some? then s
    else State(s.byId[r.capabilityId := r], s.byKey[KeyOf(r) := r],
               s.perPlugin[r.pluginName := IdsOf(s, r.pluginName) + {r.capabilityId}])
  }

  function FindById(s: State, capabilityId: Id): Option<Ref> {
    if capabilityId in s.byId then Some(s.byId[capabilityId]) else None
  }

  function FindByKey(s: State, pluginName: string, key: string): Option<Ref> {
    var k := CapabilityKey(pluginName, key);
    if k in s.byKey then Some(s.byKey[k]) else None
  }

  // The keys under which the capabilities with these ids are kept for a plugin.
  function KeysOf(byId: map<Id, Ref>, pluginName: string, ids: set<Id>): set<string> {
    set id | id in ids && id in byId :: CapabilityKey(pluginName, byId[id].key)
  }

  function RemoveStep(s: State, pluginName: string): State {
    var ids := IdsOf(s, pluginName);
    State(s.byId - ids, s.byKey - KeysOf(s.byId, pluginName, ids), s.perPlugin - {pluginName})
  }

  function Step(s: State, op: Op): State {
    match op
    case Register(r) => RegisterStep(s, r)
    case Remove(pluginName) => RemoveStep(s, pluginName)
  }

  // One of the registry's two triples of maps.
  class CapabilityIndex {
    var byId: map<Id, Ref>
    var byKey: map<string, Ref>
    var perPlugin: map<string, set<Id>>

    function Now(): State
      reads this
    {
      State(byId, byKey, perPlugin)
    }

    constructor ()
      ensures Now() == Empty()
    {
      byId, byKey, perPlugin := map[], map[], map[];
    }

    method RegisterRef(r: Ref) returns (failure: Option<Error>)
      modifies this
      ensures failure == Refusal(old(Now()), r)
      ensures Now() == RegisterStep(old(Now()), r)
    {
      if r.capabilityId in byId {
        return Some(AlreadyRegistered(r.capabilityId));
      }
      var key := CapabilityKey(r.pluginName, r.key);
      if key in byKey {
        return Some(AlreadyRegistered(key));
      }
      byId := byId[r.capabilityId := r];
      byKey := byKey[key := r];
      if r.pluginName !in perPlugin {
        perPlugin := perPlugin[r.pluginName := {}];
      }
      perPlugin := perPlugin[r.pluginName := perPlugin[r.pluginName] + {r.capabilityId}];
      failure := None;
    }

    method RequireById(capabilityId: Id) returns (found: Result<Ref, Error>)
      ensures match FindById(Now(), capabilityId)
              case Some(r) => found == Ok(r)
              case None => found == Err(NotRegistered(capabilityId))
    {
      if capabilityId !in byId { return Err(NotRegistered(capabilityId)); }
      found := Ok(byId[capabilityId]);
    }

    method RequireByKey(pluginName: string, key: string) returns (found: Result<Ref, Error>)
      ensures match FindByKey(Now(), pluginName, key)
              case Some(r) => found == Ok(r)
              case None => found == Err(NotRegistered(CapabilityKey(pluginName, key)))
    {
      var k := CapabilityKey(pluginName, key);
      if k !in byKey { return Err(NotRegistered(k)); }
      found := Ok(byKey[k]);
    }

    method RemoveRefs(pluginName: string)
      modifies this
      ensures Now() == RemoveStep(old(Now()), pluginName)
    {
      if pluginName in perPlugin {
        var ids := perPlugin[pluginName];
        var rest := ids;
        while rest != {}
          invariant rest <= ids && perPlugin == old(perPlugin)
          invariant byId == old(byId) - (ids - rest)
          invariant byKey == old(byKey) - KeysOf(old(byId), pluginName, ids - rest)
        {
          var id :| id in rest;
          assert ids - (rest - {id}) == (ids - rest) + {id};
          KeysOfOneMore(old(byId), pluginName, ids - rest, id);
          if id in byId {
            var r := byId[id];
            byId := byId - {id};
            byKey := byKey - {CapabilityKey(pluginName, r.key)};
          }
          rest := rest - {id};
        }
        assert ids - rest == ids;
        perPlugin := perPlugin - {pluginName};
      }
    }
  }

  class PluginRuntimeRegistry {
    const triggers: CapabilityIndex
    const actions: CapabilityIndex
    var modules: set<string>

    predicate Valid() {
      triggers != actions
    }

    constructor ()
      ensures Valid() && fresh(triggers) && fresh(actions)
      ensures triggers.Now() == actions.Now() == Empty() && modules == {}
    {
      triggers := new CapabilityIndex();
      actions := new CapabilityIndex();
      modules := {};
    }

    method RemovePlugin(pluginName: string)
      requires Valid()
      modifies this, triggers, actions
      ensures triggers.Now() == RemoveStep(old(triggers.Now()), pluginName)
      ensures actions.Now() == RemoveStep(old(actions.Now()), pluginName)
      ensures modules == old(modules) - {pluginName}
    {
      triggers.RemoveRefs(pluginName);
      actions.RemoveRefs(pluginName);
      modules := modules - {pluginName};
    }
  }

  lemma {:induction false} KeysOfOneMore(byId: map<Id, Ref>, pluginName: string, ids: set<Id>, id: Id)
    ensures KeysOf(byId, pluginName, ids + {id}) ==
            KeysOf(byId, pluginName, ids) + (if id in byId then {CapabilityKey(pluginName, byId[id].key)} else {})
  {
  }

  // ---------------------------------------------------------------- the three maps agree

  predicate IdsAgree(s: State) {
    forall id :: id in s.byId ==>
      var r := s.byId[id];
      r.capabilityId == id && KeyOf(r) in s.byKey && s.byKey[KeyOf(r)] == r
  }

  predicate KeysAgree(s: State) {
    forall k :: k in s.byKey ==>
      var r := s.byKey[k];
      KeyOf(r) == k && r.capabilityId in s.byId && s.byId[r.capabilityId] == r
  }

  function OwnedBy(s: State, pluginName: string): set<Id> {
    set id | id in s.byId && s.byId[id].pluginName == pluginName
  }

  ghost predicate PluginsAgree(s: State) {
    && (forall n :: n in s.perPlugin ==> s.perPlugin[n] != {})
    && (forall n :: IdsOf(s, n) == OwnedBy(s, n))
  }

  ghost predicate Inv(s: State) {
    IdsAgree(s) && KeysAgree(s) && PluginsAgree(s)
  }

  lemma {:induction false} PresentExactly(s: State, n: string)
    requires PluginsAgree(s)
    ensures n in s.perPlugin <==> OwnedBy(s, n) != {}
  {
    assert IdsOf(s, n) == OwnedBy(s, n);
  }

  lemma {:induction false} OwnerIsPresent(s: State, id: Id)
    requires PluginsAgree(s) && id in s.byId
    ensures s.byId[id].pluginName in s.perPlugin
  {
    assert id in OwnedBy(s, s.byId[id].pluginName);
    PresentExactly(s, s.byId[id].pluginName);
  }

  lemma {:induction false} RegisterKeepsInv(s: State, r: Ref)
    requires Inv(s)
    ensures Inv(RegisterStep(s, r))
  {
    var t := RegisterStep(s, r);
    if Refusal(s, r).None? {
      forall n ensures IdsOf(t, n) == OwnedBy(t, n) {
        assert IdsOf(s, n) == OwnedBy(s, n);
      }
    }
  }

  /** Removing a plugin removes its capabilities, all of them and no others, from all three maps. */
  lemma {:induction false} RemoveIsExact(s: State, pluginName: string)
    requires Inv(s)
    ensures var t := RemoveStep(s, pluginName);
            && t.byId == (map id | id in s.byId && s.byId[id].pluginName != pluginName :: s.byId[id])
            && t.byKey == (map k | k in s.byKey && s.byKey[k].pluginName != pluginName :: s.byKey[k])
            && t.perPlugin == s.perPlugin - {pluginName}
  {
    var ids := IdsOf(s, pluginName);
    assert ids == OwnedBy(s, pluginName);
    var keys := KeysOf(s.byId, pluginName, ids);
    forall k | k in s.byKey ensures k in keys <==> s.byKey[k].pluginName == pluginName {
      if s.byKey[k].pluginName == pluginName {
        var id := s.byKey[k].capabilityId;
        assert id in ids && CapabilityKey(pluginName, s.byId[id].key) == k;
      }
      if k in keys {
        var id :| id in ids && id in s.byId && CapabilityKey(pluginName, s.byId[id].key) == k;
        assert s.byKey[KeyOf(s.byId[id])] == s.byId[id];
      }
    }
  }

  lemma {:induction false} RemoveKeepsInv(s: State, pluginName: string)
    requires Inv(s)
    ensures Inv(RemoveStep(s, pluginName))
  {
    RemoveIsExact(s, pluginName);
    var t := RemoveStep(s, pluginName);
    forall n ensures IdsOf(t, n) == OwnedBy(t, n) {
      assert IdsOf(s, n) == OwnedBy(s, n);
    }
  }

  function Run(s: State, ops: seq<Op>): State
    decreases |ops|
  {
    if ops == [] then s else Run(Step(s, ops[0]), ops[1..])
  }

  lemma {:induction false} RunKeepsInv(s: State, ops: seq<Op>)
    requires Inv(s)
    ensures Inv(Run(s, ops))
    decreases |ops|
  {
    if ops != [] {
      match ops[0]
      case Register(r) => RegisterKeepsInv(s, r); RunKeepsInv(RegisterStep(s, r), ops[1..]);
      case Remove(n) => RemoveKeepsInv(s, n); RunKeepsInv(RemoveStep(s, n), ops[1..]);
    }
  }

  lemma {:induction false} SameReferences(s: State)
    requires IdsAgree(s) && KeysAgree(s)
    ensures s.byId.Values == s.byKey.Values && |s.byId| == |s.byKey|
  {
    forall r ensures r in s.byId.Values <==> r in s.byKey.Values {
      if r in s.byId.Values {
        var id :| id in s.byId && s.byId[id] == r;
        assert s.byKey[KeyOf(r)] == r;
      }
      if r in s.byKey.Values {
        var k :| k in s.byKey && s.byKey[k] == r;
        assert s.byId[r.capabilityId] == r;
      }
    }
    SameSize(s, s.byId.Keys);
    forall k ensures k in s.byKey <==> k in KeysFor(s, s.byId.Keys) {
      if k in s.byKey {
        assert KeyOf(s.byId[s.byKey[k].capabilityId]) == k;
      }
    }
    assert s.byKey.Keys == KeysFor(s, s.byId.Keys);
  }

  lemma {:induction false} PluginSets(s: State)
    requires PluginsAgree(s)
    ensures s.perPlugin.Keys == (set id | id in s.byId :: s.byId[id].pluginName)
    ensures forall n :: n in s.perPlugin ==> s.perPlugin[n] == OwnedBy(s, n)
  {
    forall n | n in s.perPlugin
      ensures s.perPlugin[n] == OwnedBy(s, n)
      ensures exists id :: id in s.byId && s.byId[id].pluginName == n
    {
      assert IdsOf(s, n) == OwnedBy(s, n);
      var id :| id in s.perPlugin[n];
      assert id in OwnedBy(s, n);
    }
    forall id | id in s.byId ensures s.byId[id].pluginName in s.perPlugin {
      OwnerIsPresent(s, id);
    }
  }

  /**
   After any registrations, refused or not, and removals: the id map and the key map hold the same
   references, and a plugin's id set is the ids of the references that name it.
   */
  lemma {:induction false} MapsDescribeTheSameReferences(ops: seq<Op>)
    ensures var s := Run(Empty(), ops);
            && s.byId.Values == s.byKey.Values
            && |s.byId| == |s.byKey|
            && s.perPlugin.Keys == (set id | id in s.byId :: s.byId[id].pluginName)
            && (forall n :: n in s.perPlugin ==> s.perPlugin[n] == OwnedBy(s, n))
  {
    RunKeepsInv(Empty(), ops);
    SameReferences(Run(Empty(), ops));
    PluginSets(Run(Empty(), ops));
  }

  function KeysFor(s: State, ids: set<Id>): set<string>
    requires ids <= s.byId.Keys
  {
    set id | id in ids :: KeyOf(s.byId[id])
  }

  lemma {:induction false} SameSize(s: State, ids: set<Id>)
    requires IdsAgree(s) && ids <= s.byId.Keys
    ensures |KeysFor(s, ids)| == |ids|
    decreases ids
  {
    if ids != {} {
      var a :| a in ids;
      var rest := ids - {a};
      SameSize(s, rest);
      assert KeysFor(s, ids) == KeysFor(s, rest) + {KeyOf(s.byId[a])};
      assert KeyOf(s.byId[a]) !in KeysFor(s, rest);
    }
  }

  // ---------------------------------------------------------------- one set of references

  predicate Conflicts(q: Ref, r: Ref) {
    q.capabilityId == r.capabilityId || KeyOf(q) == KeyOf(r)
  }

  // The registry as one set of references: registering adds one unless it conflicts, removing takes a plugin's.
  function StepOnSet(refs: set<Ref>, op: Op): set<Ref> {
    match op
    case Register(r) => if exists q :: q in refs && Conflicts(q, r) then refs else refs + {r}
    case Remove(n) => set q | q in refs && q.pluginName != n
  }

  function Registered(refs: set<Ref>, ops: seq<Op>): set<Ref>
    decreases |ops|
  {
    if ops == [] then refs else Registered(StepOnSet(refs, ops[0]), ops[1..])
  }

  ghost predicate Holds(s: State, refs: set<Ref>) {
    Inv(s) && forall r :: r in refs <==> r.capabilityId in s.byId && s.byId[r.capabilityId] == r
  }

  lemma {:induction false} RegisterHolds(s: State, refs: set<Ref>, r: Ref)
    requires Holds(s, refs)
    ensures Holds(RegisterStep(s, r), StepOnSet(refs, Register(r)))
  {
    RegisterKeepsInv(s, r);
    if r.capabilityId in s.byId {
      assert s.byId[r.capabilityId] in refs && Conflicts(s.byId[r.capabilityId], r);
    } else if KeyOf(r) in s.byKey {
      assert s.byKey[KeyOf(r)] in refs && Conflicts(s.byKey[KeyOf(r)], r);
    } else {
      forall q | q in refs ensures !Conflicts(q, r) {
        assert KeyOf(q) in s.byKey;
      }
    }
  }

  lemma {:induction false} RemoveHolds(s: State, refs: set<Ref>, n: string)
    requires Holds(s, refs)
    ensures Holds(RemoveStep(s, n), StepOnSet(refs, Remove(n)))
  {
    RemoveKeepsInv(s, n);
    RemoveIsExact(s, n);
  }

  lemma {:induction false} RunHolds(s: State, refs: set<Ref>, ops: seq<Op>)
    requires Holds(s, refs)
    ensures Holds(Run(s, ops), Registered(refs, ops))
    decreases |ops|
  {
    if ops != [] {
      match ops[0]
      case Register(r) => RegisterHolds(s, refs, r); RunHolds(RegisterStep(s, r), StepOnSet(refs, ops[0]), ops[1..]);
      case Remove(n) => RemoveHolds(s, refs, n); RunHolds(RemoveStep(s, n), StepOnSet(refs, ops[0]), ops[1..]);
    }
  }

  /**
   In every run, looking up by id or by key finds exactly the reference that was registered under it and
   not removed since: the three maps together are one set of references without conflicts.
   */
  lemma {:induction false} LookupsFindWhatIsRegistered(ops: seq<Op>)
    ensures var s, refs := Run(Empty(), ops), Registered({}, ops);
            && (forall id, r :: FindById(s, id) == Some(r) <==> r in refs && r.capabilityId == id)
            && (forall p, k, r :: FindByKey(s, p, k) == Some(r) <==> r in refs && KeyOf(r) == CapabilityKey(p, k))
            && (forall q, r :: q in refs && r in refs && q != r ==> !Conflicts(q, r))
  {
    RunHolds(Empty(), {}, ops);
    var s, refs := Run(Empty(), ops), Registered({}, ops);
    forall q, r | q in refs && r in refs && q != r ensures !Conflicts(q, r) {
      assert s.byKey[KeyOf(q)] == q && s.byKey[KeyOf(r)] == r;
    }
  }

  /** A registration is refused exactly if a registered reference has its id, or else its key, which the error names. */
  lemma {:induction false} RefusedExactly(ops: seq<Op>, r: Ref)
    ensures var s, refs := Run(Empty(), ops), Registered({}, ops);
            Refusal(s, r)
            == if exists q :: q in refs && q.capabilityId == r.capabilityId then Some(AlreadyRegistered(r.capabilityId))
               else if exists q :: q in refs && KeyOf(q) == r.pluginName + ":" + r.key
                    then Some(AlreadyRegistered(r.pluginName + ":" + r.key))
               else None
  {
    LookupsFindWhatIsRegistered(ops);
    var s, refs := Run(Empty(), ops), Registered({}, ops);
    if r.capabilityId in s.byId {
      assert FindById(s, r.capabilityId) == Some(s.byId[r.capabilityId]);
    } else if KeyOf(r) in s.byKey {
      assert FindByKey(s, r.pluginName, r.key) == Some(s.byKey[KeyOf(r)]);
    }
    forall q | q in refs ensures q.capabilityId in s.byId && KeyOf(q) in s.byKey {
      assert FindById(s, q.capabilityId) == Some(q) && FindByKey(s, q.pluginName, q.key) == Some(q);
    }
  }

  // ---------------------------------------------------------------- removing and registering again

  function RegisterAll(s: State, rs: seq<Ref>): State {
    if rs == [] then s else RegisterStep(RegisterAll(s, rs[..|rs| - 1]), rs[|rs| - 1])
  }

  predicate AllAccepted(s: State, rs: seq<Ref>) {
    rs == [] ||
    (AllAccepted(s, rs[..|rs| - 1]) && Refusal(RegisterAll(s, rs[..|rs| - 1]), rs[|rs| - 1]).None?)
  }

  // rs lists the references of a plugin, each once.
  ghost predicate ListsPlugin(s: State, pluginName: string, rs: seq<Ref>) {
    && (forall i, j :: 0 <= i < j < |rs| ==> rs[i] != rs[j])
    && (forall r :: r in rs <==> r.capabilityId in s.byId && s.byId[r.capabilityId] == r && r.pluginName == pluginName)
  }

  predicate IsPart(t: State, s: State) {
    forall id :: id in t.byId ==> id in s.byId && t.byId[id] == s.byId[id]
  }

  lemma {:induction false} PartKey(t: State, s: State, k: string)
    requires IdsAgree(s) && KeysAgree(t) && IsPart(t, s) && k in t.byKey
    ensures k in s.byKey && s.byKey[k] == t.byKey[k] && t.byKey[k].capabilityId in t.byId
  {
    assert t.byId[t.byKey[k].capabilityId] == t.byKey[k];
  }

  // Where t has only references of s, one of s that t lacks is accepted.
  lemma {:induction false} NotRefused(s: State, t: State, r: Ref)
    requires IdsAgree(s) && KeysAgree(t) && IsPart(t, s)
    requires r.capabilityId in s.byId && s.byId[r.capabilityId] == r && r.capabilityId !in t.byId
    ensures Refusal(t, r).None?
  {
    if KeyOf(r) in t.byKey {
      PartKey(t, s, KeyOf(r));
      assert false;
    }
  }

  // t is s but for the references of the plugin that are not among `done`.
  ghost predicate Lacks(s: State, t: State, pluginName: string, done: seq<Ref>) {
    && IsPart(t, s)
    && (forall id :: id in s.byId ==> (id in t.byId <==> s.byId[id].pluginName != pluginName || s.byId[id] in done))
  }

  lemma {:induction false} OneLessLacking(s: State, t: State, pluginName: string, done: seq<Ref>, r: Ref)
    requires Inv(s) && Inv(t) && Lacks(s, t, pluginName, done)
    requires r.capabilityId in s.byId && s.byId[r.capabilityId] == r && r.pluginName == pluginName && r !in done
    ensures Refusal(t, r).None?
    ensures Inv(RegisterStep(t, r)) && Lacks(s, RegisterStep(t, r), pluginName, done + [r])
  {
    NotRefused(s, t, r);
    RegisterKeepsInv(t, r);
    forall id | id in s.byId && id != r.capabilityId ensures s.byId[id] != r {
      assert s.byId[id].capabilityId == id;
    }
  }

  lemma {:induction false} RegisterOneMore(s: State, rs: seq<Ref>, n: nat)
    requires n < |rs|
    ensures RegisterAll(s, rs[..n + 1]) == RegisterStep(RegisterAll(s, rs[..n]), rs[n])
    ensures AllAccepted(s, rs[..n + 1]) <==> AllAccepted(s, rs[..n]) && Refusal(RegisterAll(s, rs[..n]), rs[n]).None?
  {
    assert rs[..n + 1][..n] == rs[..n];
  }

  lemma {:induction false} RemovedLacks(s: State, pluginName: string)
    requires Inv(s)
    ensures Inv(RemoveStep(s, pluginName)) && Lacks(s, RemoveStep(s, pluginName), pluginName, [])
  {
    RemoveIsExact(s, pluginName);
    RemoveKeepsInv(s, pluginName);
  }

  lemma {:induction false} NotYetListed(s: State, pluginName: string, rs: seq<Ref>, n: nat)
    requires ListsPlugin(s, pluginName, rs) && n < |rs|
    ensures rs[n] !in rs[..n]
    ensures var r := rs[n]; r.capabilityId in s.byId && s.byId[r.capabilityId] == r && r.pluginName == pluginName
  {
    assert rs[n] in rs;
  }

  ghost predicate RegisteredFirst(s: State, pluginName: string, rs: seq<Ref>, n: nat)
    requires n <= |rs|
  {
    var t := RegisterAll(RemoveStep(s, pluginName), rs[..n]);
    AllAccepted(RemoveStep(s, pluginName), rs[..n]) && Inv(t) && Lacks(s, t, pluginName, rs[..n])
  }

  lemma {:induction false} RegisteredNext(s: State, pluginName: string, rs: seq<Ref>, n: nat)
    requires Inv(s) && n < |rs| && RegisteredFirst(s, pluginName, rs, n) && rs[n] !in rs[..n]
    requires var r := rs[n]; r.capabilityId in s.byId && s.byId[r.capabilityId] == r && r.pluginName == pluginName
    ensures RegisteredFirst(s, pluginName, rs, n + 1)
  {
    var bare := RemoveStep(s, pluginName);
    assert rs[..n + 1] == rs[..n] + [rs[n]];
    RegisterOneMore(bare, rs, n);
    OneLessLacking(s, RegisterAll(bare, rs[..n]), pluginName, rs[..n], rs[n]);
  }

  // The first n references of a plugin, registered after its removal.
  lemma {:induction false} RegisteredAgain(s: State, pluginName: string, rs: seq<Ref>, n: nat)
    requires Inv(s) && ListsPlugin(s, pluginName, rs) && n <= |rs|
    ensures RegisteredFirst(s, pluginName, rs, n)
    decreases n
  {
    if n == 0 {
      RemovedLacks(s, pluginName);
    } else {
      RegisteredAgain(s, pluginName, rs, n - 1);
      NotYetListed(s, pluginName, rs, n - 1);
      RegisteredNext(s, pluginName, rs, n - 1);
    }
  }

  lemma {:induction false} SameIdsSameState(s: State, t: State)
    requires Inv(s) && Inv(t) && s.byId == t.byId
    ensures s == t
  {
    forall k | k in s.byKey ensures k in t.byKey && t.byKey[k] == s.byKey[k] {
      assert t.byId[s.byKey[k].capabilityId] == s.byKey[k];
    }
    forall k | k in t.byKey ensures k in s.byKey {
      assert s.byId[t.byKey[k].capabilityId] == t.byKey[k];
    }
    forall n ensures n in s.perPlugin <==> n in t.perPlugin {
      assert OwnedBy(s, n) == OwnedBy(t, n);
      PresentExactly(s, n);
      PresentExactly(t, n);
    }
    forall n | n in s.perPlugin ensures s.perPlugin[n] == t.perPlugin[n] {
      assert IdsOf(s, n) == OwnedBy(s, n) == OwnedBy(t, n) == IdsOf(t, n);
    }
  }

  /** After a plugin is removed its capabilities register again, all accepted, in any order, and all is as it was. */
  lemma {:induction false} RemoveThenRegisterRestores(s: State, pluginName: string, rs: seq<Ref>)
    requires Inv(s) && ListsPlugin(s, pluginName, rs)
    ensures AllAccepted(RemoveStep(s, pluginName), rs)
    ensures RegisterAll(RemoveStep(s, pluginName), rs) == s
  {
    assert rs[..|rs|] == rs;
    RegisteredAgain(s, pluginName, rs, |rs|);
    var t := RegisterAll(RemoveStep(s, pluginName), rs);
    SameIds(s, t, pluginName, rs);
    SameIdsSameState(s, t);
  }

  lemma {:induction false} SameIds(s: State, t: State, pluginName: string, rs: seq<Ref>)
    requires IdsAgree(s) && ListsPlugin(s, pluginName, rs) && Lacks(s, t, pluginName, rs)
    ensures t.byId == s.byId
  {
    forall id | id in s.byId ensures id in t.byId {
      assert s.byId[id].pluginName == pluginName ==> s.byId[id] in rs;
    }
  }

  /** Registering a plugin's only capability and removing the plugin undo each other. */
  lemma {:induction false} RegisterThenRemoveRestores(s: State, r: Ref)
    requires Inv(s) && Refusal(s, r).None? && r.pluginName !in s.perPlugin
    ensures RemoveStep(RegisterStep(s, r), r.pluginName) == s
  {
    var t := RegisterStep(s, r);
    RegisterKeepsInv(s, r);
    RemoveIsExact(t, r.pluginName);
    RemoveKeepsInv(t, r.pluginName);
    forall id | id in s.byId ensures s.byId[id].pluginName != r.pluginName {
      OwnerIsPresent(s, id);
    }
    assert RemoveStep(t, r.pluginName).byId == s.byId;
    SameIdsSameState(RemoveStep(t, r.pluginName), s);
  }

  // ---------------------------------------------------------------- names and keys

  predicate SameKey(p: string, k: string, q: string, l: string) {
    CapabilityKey(p, k) == CapabilityKey(q, l)
  }

  // A name that another one continues after a colon.
  predicate Extends(p: string, q: string) {
    p + ":" <= q
  }

  lemma {:induction false} ShorterNameIsExtended(p: string, k: string, q: string, l: string)
    requires SameKey(p, k, q, l) && |p| <= |q|
    ensures (p == q && k == l) || Extends(p, q)
  {
    var a, b := CapabilityKey(p, k), CapabilityKey(q, l);
    assert a[..|p|] == p && b[..|q|] == q && a[|p|] == ':';
    if |p| == |q| {
      assert k == a[|p| + 1..] && l == b[|q| + 1..];
    } else {
      assert q[..|p|] == p && q[|p|] == b[|p|];
      assert q[..|p| + 1] == p + ":";
    }
  }

  lemma {:induction false} ExtendedNameCollides(p: string, q: string)
    requires Extends(p, q)
    ensures SameKey(p, q[|p| + 1..] + ":", q, "")
  {
    assert q == p + ":" + q[|p| + 1..];
  }

  /** Two plugins can have capabilities under one key exactly when one's name continues the other's after a colon. */
  lemma {:induction false} KeysCollideExactly(p: string, q: string)
    requires p != q
    ensures (exists k, l :: SameKey(p, k, q, l)) <==> Extends(p, q) || Extends(q, p)
  {
    if k, l :| SameKey(p, k, q, l) {
      if |p| <= |q| { ShorterNameIsExtended(p, k, q, l); } else { ShorterNameIsExtended(q, l, p, k); }
    }
    if Extends(p, q) { ExtendedNameCollides(p, q); }
    if Extends(q, p) {
      ExtendedNameCollides(q, p);
      assert SameKey(p, "", q, p[|q| + 1..] + ":");
    }
  }

  // Only plugins of these names register.
  ghost predicate RegistersOnly(names: iset<string>, ops: seq<Op>) {
    forall op :: op in ops && op.Register? ==> op.r.pluginName in names
  }

  // A lookup by plugin and key only ever finds that plugin's capability of that key.
  ghost predicate LookupsAreOwn(names: iset<string>) {
    forall ops, p, k :: RegistersOnly(names, ops) && p in names && FindByKey(Run(Empty(), ops), p, k).Some? ==>
      var r := FindByKey(Run(Empty(), ops), p, k).value;
      r.pluginName == p && r.key == k
  }

  lemma {:induction false} RegisteredNames(names: iset<string>, refs: set<Ref>, ops: seq<Op>)
    requires RegistersOnly(names, ops) && forall r :: r in refs ==> r.pluginName in names
    ensures forall r :: r in Registered(refs, ops) ==> r.pluginName in names
    decreases |ops|
  {
    if ops != [] {
      assert ops[0] in ops;
      RegisteredNames(names, StepOnSet(refs, ops[0]), ops[1..]);
    }
  }

  /**
   For plugins of given names: in every run every lookup by plugin and key finds that plugin's own
   capability of that key or none, exactly when no name continues another after a colon.
   */
  lemma {:induction false} LookupsAreOwnExactly(names: iset<string>)
    ensures LookupsAreOwn(names) <==> forall p, q :: p in names && q in names ==> !Extends(p, q)
  {
    if p, q :| p in names && q in names && Extends(p, q) {
      var r := Ref("", q, "", "");
      ExtendedNameCollides(p, q);
      assert [Register(r)][1..] == [];
      assert Run(Empty(), [Register(r)]) == RegisterStep(Empty(), r);
      assert RegistersOnly(names, [Register(r)]);
      assert FindByKey(Run(Empty(), [Register(r)]), p, q[|p| + 1..] + ":") == Some(r);
    } else {
      forall ops, p, k | RegistersOnly(names, ops) && p in names && FindByKey(Run(Empty(), ops), p, k).Some?
        ensures var r := FindByKey(Run(Empty(), ops), p, k).value; r.pluginName == p && r.key == k
      {
        var r := FindByKey(Run(Empty(), ops), p, k).value;
        LookupsFindWhatIsRegistered(ops);
        RegisteredNames(names, {}, ops);
        assert SameKey(r.pluginName, r.key, p, k) && SameKey(p, k, r.pluginName, r.key);
        if |p| <= |r.pluginName| {
          ShorterNameIsExtended(p, k, r.pluginName, r.key);
        } else {
          ShorterNameIsExtended(r.pluginName, r.key, p, k);
        }
      }
    }
  }

  /** With colons in names, one plugin's lookup can find another plugin's capability. */
  lemma {:induction false} KeysCollideWithColons()
    ensures var r := Ref("1", "mail:smtp", "c1", "send");
            && CapabilityKey("mail", "smtp:send") == KeyOf(r)
            && CapabilityKey("mail", "smtp:send") in RegisterStep(Empty(), r).byKey
  {
    var r := Ref("1", "mail:smtp", "c1", "send");
    assert CapabilityKey("mail", "smtp:send") == "mail:smtp:send" == KeyOf(r);
  }
}
