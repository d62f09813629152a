/**
 * The tick schedule: the ordered list of update actions one workspace
 * iteration runs, plus the bookkeeping that keeps per-component and
 * per-coupling actions in step with the workspace's lifecycle events.
 *
 * Actions are objects, so two actions built from the same component are
 * different actions, exactly as two `new UpdateComponent(...)` are in Java.
 * Listener callbacks are recorded in a ghost log of deliveries.
 */
module UpdateActions {

  import opened Wrappers
  import opened Strings
  import Lists

  /** A workspace component, seen only through the description of its update action. */
  datatype Component = Component(id: nat, description: string)

  /** A coupling, seen only through the description of its update action. */
  datatype Coupling = Coupling(id: nat, description: string)

  /** A registered UpdateManagerListener. */
  datatype Listener = Listener(id: nat)

  /** What an action does when a tick invokes it. */
  datatype ActionKind =
    | UpdateAll
    | SyncCouplings
    | Delay
    | UpdateComponent(component: Component)
    | UpdateCoupling(coupling: Coupling)
    | Custom

  /** An UpdateAction: a unit of work with a description, compared by identity. */
  class UpdateAction {
    const kind: ActionKind
    const description: string

    constructor (kind: ActionKind, description: string)
      ensures this.kind == kind && this.description == description
    {
      this.kind := kind;
      this.description := description;
    }
  }

  /** The value-level content of an action: what it does and how it is described. */
  datatype ActionSpec = ActionSpec(kind: ActionKind, description: string)

  function Spec(a: UpdateAction): ActionSpec
  {
    ActionSpec(a.kind, a.description)
  }

  /** The three UpdateManagerListener callbacks; a removal may report null. */
  datatype Notice =
    | ActionAdded(added: UpdateAction)
    | ActionRemoved(removed: UpdateAction?)
    | ActionOrderChanged

  /** One callback delivered to one listener. */
  datatype Delivery = Delivery(listener: Listener, notice: Notice)

  /** The workspace and coupling-manager callbacks the manager subscribes to. */
  datatype WorkspaceEvent =
    | WorkspaceCleared
    | NewWorkspaceOpened
    | ComponentAdded(component: Component)
    | ComponentRemoved(component: Component)
    | CouplingAdded(coupling: Coupling)
    | CouplingRemoved(coupling: Coupling)
    | CouplingsRemoved(couplings: seq<Coupling>)

  /** One notice delivered to every listener, in registration order. */
  function Broadcast(ls: seq<Listener>, n: Notice): seq<Delivery>
    decreases |ls|
  {
    if ls == [] then [] else Broadcast(ls[..|ls| - 1], n) + [Delivery(ls[|ls| - 1], n)]
  }

  /** Each listener receives the notice exactly once, and in registration order. */
  lemma {:induction false} BroadcastReachesEachListener(ls: seq<Listener>, n: Notice)
    ensures |Broadcast(ls, n)| == |ls|
    ensures forall i :: 0 <= i < |ls| ==> Broadcast(ls, n)[i] == Delivery(ls[i], n)
    decreases |ls|
  {
    if ls != [] {
      BroadcastReachesEachListener(ls[..|ls| - 1], n);
    }
  }

  /** The deliveries of one actionRemoved per entry of `removed`, in order. */
  function RemovalNotices(ls: seq<Listener>, removed: seq<UpdateAction?>): seq<Delivery>
    decreases |removed|
  {
    if removed == [] then []
    else RemovalNotices(ls, removed[..|removed| - 1]) + Broadcast(ls, ActionRemoved(removed[|removed| - 1]))
  }

  /** Extending a log of removal notices by the notices for one more removal. */
  lemma RemovalNoticesStep(log0: seq<Delivery>, log1: seq<Delivery>, log2: seq<Delivery>,
                           ls: seq<Listener>, removed: seq<UpdateAction?>, i: nat)
    requires i < |removed|
    requires log1 == log0 + RemovalNotices(ls, removed[..i])
    requires log2 == log1 + Broadcast(ls, ActionRemoved(removed[i]))
    ensures log2 == log0 + RemovalNotices(ls, removed[..i + 1])
  {
    assert removed[..i + 1][..i] == removed[..i];
  }

  /** HashMap.remove's result: the mapped action, or null when there is none. */
  function Lookup<K>(m: map<K, UpdateAction>, k: K): (r: UpdateAction?)
    ensures r == null <==> k !in m
    ensures k in m ==> r == m[k]
  {
    if k in m then m[k] else null
  }

  /** removeAction's effect on the list: List.remove(null) finds nothing in a list without nulls. */
  function RemoveMaybe(list: seq<UpdateAction>, a: UpdateAction?): seq<UpdateAction>
  {
    if a == null then list else Lists.RemoveFirst<UpdateAction>(list, a)
  }

  /** The list after removeAction was called on each of `removed` in turn. */
  function RemoveEach(list: seq<UpdateAction>, removed: seq<UpdateAction?>): seq<UpdateAction>
    decreases |removed|
  {
    if removed == [] then list
    else RemoveMaybe(RemoveEach(list, removed[..|removed| - 1]), removed[|removed| - 1])
  }

  /** The keys occurring in ks. */
  function KeysOf<K>(ks: seq<K>): set<K>
  {
    set k | k in ks
  }

  /**
   * What successive HashMap.remove calls return for each key of ks, starting
   * from m: a key met a second time, or never mapped, yields null.
   */
  function Unmapped<K>(m: map<K, UpdateAction>, ks: seq<K>): (r: seq<UpdateAction?>)
    ensures |r| == |ks|
    decreases |ks|
  {
    if ks == [] then []
    else
      var prefix := ks[..|ks| - 1];
      Unmapped(m, prefix) + [Lookup(m - KeysOf(prefix), ks[|ks| - 1])]
  }

  /** Each key's result: its mapping, unless the key is unmapped or was already removed earlier in the batch. */
  lemma {:induction false} UnmappedAt<K>(m: map<K, UpdateAction>, ks: seq<K>)
    ensures forall i :: 0 <= i < |ks| ==>
      Unmapped(m, ks)[i] == (if ks[i] in m && ks[i] !in ks[..i] then m[ks[i]] else null)
    decreases |ks|
  {
    if ks != [] {
      var prefix := ks[..|ks| - 1];
      UnmappedAt(m, prefix);
      forall i | 0 <= i < |ks|
        ensures Unmapped(m, ks)[i] == (if ks[i] in m && ks[i] !in ks[..i] then m[ks[i]] else null)
      {
        if i < |ks| - 1 {
          assert ks[..i] == prefix[..i];
        } else {
          assert ks[..i] == prefix;
        }
      }
    }
  }

  /** One more key: its HashMap.remove result is looked up in what the earlier keys left. */
  lemma UnmappedStep<K>(m: map<K, UpdateAction>, ks: seq<K>, i: nat)
    requires i < |ks|
    ensures KeysOf(ks[..i + 1]) == KeysOf(ks[..i]) + {ks[i]}
    ensures Unmapped(m, ks[..i + 1])[..i] == Unmapped(m, ks[..i])
    ensures Unmapped(m, ks[..i + 1])[i] == Lookup(m - KeysOf(ks[..i]), ks[i])
  {
    assert ks[..i + 1][..i] == ks[..i];
    assert ks[..i + 1] == ks[..i] + [ks[i]];
  }

  /** Forgetting the keys of ks and then k is forgetting ks and k together. */
  lemma MapMinusStep<K, V>(m: map<K, V>, ks: set<K>, k: K)
    ensures (m - ks) - {k} == m - (ks + {k})
  {
  }

  /** One more removal applied to the list. */
  lemma RemoveEachStep(list: seq<UpdateAction>, removed: seq<UpdateAction?>, i: nat)
    requires i < |removed|
    ensures RemoveEach(list, removed[..i + 1]) == RemoveMaybe(RemoveEach(list, removed[..i]), removed[i])
  {
    assert removed[..i + 1][..i] == removed[..i];
  }

  /**
   * couplingsRemoved handles its batch one coupling at a time; after i
   * couplings the map has lost their keys, and the list and the log show the
   * removals of what successive HashMap.remove calls returned.
   */
  lemma BatchRemovalStep(m0: map<Coupling, UpdateAction>, list0: seq<UpdateAction>, log0: seq<Delivery>,
                         ls: seq<Listener>, cs: seq<Coupling>, i: nat,
                         m1: map<Coupling, UpdateAction>, list1: seq<UpdateAction>, log1: seq<Delivery>,
                         m2: map<Coupling, UpdateAction>, list2: seq<UpdateAction>, log2: seq<Delivery>)
    requires i < |cs|
    requires m1 == m0 - KeysOf(cs[..i])
    requires list1 == RemoveEach(list0, Unmapped(m0, cs[..i]))
    requires log1 == log0 + RemovalNotices(ls, Unmapped(m0, cs[..i]))
    requires m2 == m1 - {cs[i]}
    requires list2 == RemoveMaybe(list1, Lookup(m1, cs[i]))
    requires log2 == log1 + Broadcast(ls, ActionRemoved(Lookup(m1, cs[i])))
    ensures m2 == m0 - KeysOf(cs[..i + 1])
    ensures list2 == RemoveEach(list0, Unmapped(m0, cs[..i + 1]))
    ensures log2 == log0 + RemovalNotices(ls, Unmapped(m0, cs[..i + 1]))
  {
    UnmappedStep(m0, cs, i);
    var removed := Unmapped(m0, cs[..i + 1]);
    MapMinusStep(m0, KeysOf(cs[..i]), cs[i]);
    RemovalNoticesStep(log0, log1, log2, ls, removed, i);
    RemoveEachStep(list0, removed, i);
  }

  /** The non-null entries of a sequence of removals. */
  function Present(removed: seq<UpdateAction?>): (r: seq<UpdateAction>)
    ensures |r| <= |removed|
    decreases |removed|
  {
    if removed == [] then []
    else
      var last := removed[|removed| - 1];
      Present(removed[..|removed| - 1]) + (if last == null then [] else [last])
  }

  /**
   * Removing a sequence of actions one at a time takes each of them out once
   * (those that are there), and touches nothing else.
   */
  lemma {:induction false} RemoveEachMultiset(list: seq<UpdateAction>, removed: seq<UpdateAction?>)
    ensures multiset(RemoveEach(list, removed)) == multiset(list) - multiset(Present(removed))
    decreases |removed|
  {
    if removed != [] {
      var prefix := removed[..|removed| - 1];
      var last := removed[|removed| - 1];
      var before := RemoveEach(list, prefix);
      RemoveEachMultiset(list, prefix);
      assert RemoveEach(list, removed) == RemoveMaybe(before, last);
      if last == null {
        assert Present(removed) == Present(prefix);
      } else {
        var x: UpdateAction := last;
        Lists.RemoveFirstMultiset<UpdateAction>(before, x);
        assert Present(removed) == Present(prefix) + [x];
        Lists.MultisetMinusMinus<UpdateAction>(multiset(list), multiset(Present(prefix)), multiset{x});
      }
    }
  }

  /**
   * clear() removes the entries of a snapshot one by one; each removal takes
   * out the snapshot's next entry, which is then the head of the list.
   */
  lemma {:induction false} RemoveEachPrefixLeavesSuffix(s: seq<UpdateAction>, i: nat)
    requires i <= |s|
    ensures RemoveEach(s, s[..i]) == s[i..]
  {
    if i > 0 {
      RemoveEachPrefixLeavesSuffix(s, i - 1);
      assert s[..i][..i - 1] == s[..i - 1];
      Lists.RemoveFirstOfHead(s[i - 1..]);
    }
  }

  /** So clearing empties the list even when it holds the same action several times. */
  lemma SnapshotRemovalEmpties(s: seq<UpdateAction>)
    ensures RemoveEach(s, s) == []
  {
    RemoveEachPrefixLeavesSuffix(s, |s|);
    assert s[..|s|] == s;
  }

  /** The fresh enumeration of addable actions: update-all, delay, then one per component and per coupling. */
  function AvailableSpecs(updateAllDescription: string, delayDescription: string,
                          components: seq<Component>, couplings: seq<Coupling>): (r: seq<ActionSpec>)
    ensures |r| == 2 + |components| + |couplings|
    ensures forall i :: 0 <= i < |components| ==> r[2 + i].description == components[i].description
    ensures forall j :: 0 <= j < |couplings| ==> r[2 + |components| + j].description == couplings[j].description
  {
    [ActionSpec(UpdateAll, updateAllDescription), ActionSpec(Delay, delayDescription)]
    + seq(|components|, i requires 0 <= i < |components| =>
        ActionSpec(UpdateComponent(components[i]), components[i].description))
    + seq(|couplings|, i requires 0 <= i < |couplings| =>
        ActionSpec(UpdateCoupling(couplings[i]), couplings[i].description))
  }

  /** The layout of the enumeration, entry by entry. */
  lemma AvailableSpecsLayout(allDesc: string, delayDesc: string, components: seq<Component>, couplings: seq<Coupling>)
    ensures var r := AvailableSpecs(allDesc, delayDesc, components, couplings);
      && |r| == 2 + |components| + |couplings|
      && r[0] == ActionSpec(UpdateAll, allDesc)
      && r[1] == ActionSpec(Delay, delayDesc)
      && (forall i :: 0 <= i < |components| ==> r[2 + i].kind == UpdateComponent(components[i]))
      && (forall j :: 0 <= j < |couplings| ==> r[2 + |components| + j].kind == UpdateCoupling(couplings[j]))
  {
  }

  /** The position of the first entry whose description equals `key` ignoring case. */
  function FindDescription(specs: seq<ActionSpec>, key: string): (r: Option<nat>)
    ensures r.Some? ==> r.value < |specs| && EqualsIgnoreCase(specs[r.value].description, key)
    ensures r.Some? ==> forall j :: 0 <= j < r.value ==> !EqualsIgnoreCase(specs[j].description, key)
    ensures r.None? <==> forall j :: 0 <= j < |specs| ==> !EqualsIgnoreCase(specs[j].description, key)
  {
    if specs == [] then None
    else if EqualsIgnoreCase(specs[0].description, key) then Some(0)
    else match FindDescription(specs[1..], key)
      case None => None
      case Some(k) => Some(k + 1)
  }

  /** A lookup by the update-all description finds the update-all entry, whatever else is live. */
  lemma UpdateAllFoundFirst(allDesc: string, delayDesc: string, components: seq<Component>,
                            couplings: seq<Coupling>, key: string)
    requires EqualsIgnoreCase(allDesc, key)
    ensures FindDescription(AvailableSpecs(allDesc, delayDesc, components, couplings), key) == Some(0)
  {
  }

  class UpdateActionManager {
    /** The schedule: one tick runs these actions in this order. */
    var actionList: seq<UpdateAction>
    /** Registered UpdateManagerListeners, in registration order. */
    var listeners: seq<Listener>
    var componentActionMap: map<Component, UpdateAction>
    var couplingActionMap: map<Coupling, UpdateAction>
    /** Every listener callback made so far. */
    ghost var events: seq<Delivery>

    /** What the manager reads from its WorkspaceUpdater. */
    const syncAction: UpdateAction
    const updateAllDescription: string
    const delayDescription: string

    /**
     * The bookkeeping maps are consistent: each remembered action updates
     * exactly the component (or coupling) it is filed under. In particular
     * no action is filed under two keys.
     */
    ghost predicate Valid()
      reads this
    {
      && (forall c :: c in componentActionMap ==> componentActionMap[c].kind == UpdateComponent(c))
      && (forall c :: c in couplingActionMap ==> couplingActionMap[c].kind == UpdateCoupling(c))
    }

    /** The reference configuration: a fresh update-all action, then coupling sync. */
    ghost predicate IsDefaultSchedule()
      reads this
    {
      && |actionList| == 2
      && Spec(actionList[0]) == ActionSpec(UpdateAll, updateAllDescription)
      && actionList[1] == syncAction
    }

    constructor (syncAction: UpdateAction, updateAllDescription: string, delayDescription: string)
      ensures this.syncAction == syncAction && this.updateAllDescription == updateAllDescription
      ensures this.delayDescription == delayDescription
      ensures Valid() && IsDefaultSchedule() && fresh(actionList[0])
      ensures listeners == [] && events == []
      ensures componentActionMap == map[] && couplingActionMap == map[]
    {
      this.syncAction := syncAction;
      this.updateAllDescription := updateAllDescription;
      this.delayDescription := delayDescription;
      actionList := [];
      listeners := [];
      componentActionMap := map[];
      couplingActionMap := map[];
      events := [];
      new;
      SetDefaultUpdateActions();
    }

    /** Delivers one notice to every listener, in order. */
    method Notify(n: Notice)
      modifies this`events
      ensures events == old(events) + Broadcast(listeners, n)
    {
      for i := 0 to |listeners|
        invariant events == old(events) + Broadcast(listeners[..i], n)
      {
        assert listeners[..i + 1][..i] == listeners[..i];
        events := events + [Delivery(listeners[i], n)];
      }
      assert listeners[..|listeners|] == listeners;
    }

    method AddListener(l: Listener)
      modifies this`listeners
      ensures listeners == old(listeners) + [l]
    {
      listeners := listeners + [l];
    }

    method RemoveListener(l: Listener)
      modifies this`listeners
      ensures listeners == Lists.RemoveFirst(old(listeners), l)
    {
      listeners := Lists.RemoveFirst(listeners, l);
    }

    /**
     * Collections.swap on the schedule. An index outside the list throws
     * before anything changes; `inBounds` is false exactly then.
     */
    method SwapElements(i: int, j: int) returns (inBounds: bool)
      modifies this`actionList, this`events
      ensures inBounds <==> 0 <= i < |old(actionList)| && 0 <= j < |old(actionList)|
      ensures inBounds ==> actionList == Lists.Swapped(old(actionList), i, j)
      ensures inBounds ==> multiset(actionList) == multiset(old(actionList))
      ensures inBounds ==> events == old(events) + Broadcast(listeners, ActionOrderChanged)
      ensures !inBounds ==> actionList == old(actionList) && events == old(events)
    {
      inBounds := 0 <= i < |actionList| && 0 <= j < |actionList|;
      if !inBounds {
        return;
      }
      Lists.SwappedIsPermutation(actionList, i, j);
      actionList := Lists.Swapped(actionList, i, j);
      Notify(ActionOrderChanged);
    }

    /** Appends an action at the end of the schedule. */
    method AddAction(a: UpdateAction)
      modifies this`actionList, this`events
      ensures actionList == old(actionList) + [a]
      ensures events == old(events) + Broadcast(listeners, ActionAdded(a))
    {
      actionList := actionList + [a];
      Notify(ActionAdded(a));
    }

    /**
     * Removes the first occurrence of an action; an absent action (or null)
     * leaves the list alone but is still reported as removed.
     */
    method RemoveAction(a: UpdateAction?)
      modifies this`actionList, this`events
      ensures actionList == RemoveMaybe(old(actionList), a)
      ensures events == old(events) + Broadcast(listeners, ActionRemoved(a))
    {
      if a != null {
        actionList := Lists.RemoveFirst<UpdateAction>(actionList, a);
      }
      Notify(ActionRemoved(a));
    }

    /** Removes every entry of a snapshot of the schedule, one actionRemoved each. */
    method Clear()
      modifies this`actionList, this`events
      ensures actionList == []
      ensures events == old(events) + RemovalNotices(listeners, old(actionList))
    {
      var snapshot := actionList;
      for i := 0 to |snapshot|
        invariant actionList == snapshot[i..]
        invariant events == old(events) + RemovalNotices(listeners, snapshot[..i])
      {
        ghost var before := events;
        RemoveAction(snapshot[i]);
        RemovalNoticesStep(old(events), before, events, listeners, snapshot, i);
        Lists.RemoveFirstOfHead(snapshot[i..]);
        assert snapshot[i..][1..] == snapshot[i + 1..];
      }
      assert snapshot[..|snapshot|] == snapshot;
    }

    /** Restores the reference schedule: update all, then synchronize couplings. */
    method SetDefaultUpdateActions()
      modifies this`actionList, this`events
      ensures IsDefaultSchedule() && fresh(actionList[0])
      ensures events == old(events) + RemovalNotices(listeners, old(actionList))
                        + Broadcast(listeners, ActionAdded(actionList[0]))
                        + Broadcast(listeners, ActionAdded(syncAction))
    {
      Clear();
      var updateAll := new UpdateAction(UpdateAll, updateAllDescription);
      AddAction(updateAll);
      AddAction(syncAction);
    }

    /** componentAdded: files a fresh update action under the component; the schedule is untouched. */
    method OnComponentAdded(c: Component)
      requires Valid()
      modifies this`componentActionMap
      ensures Valid()
      ensures c in componentActionMap && fresh(componentActionMap[c])
      ensures Spec(componentActionMap[c]) == ActionSpec(UpdateComponent(c), c.description)
      ensures componentActionMap == old(componentActionMap)[c := componentActionMap[c]]
    {
      var a := new UpdateAction(UpdateComponent(c), c.description);
      componentActionMap := componentActionMap[c := a];
    }

    /** componentRemoved: forgets the component's action and removes it from the schedule. */
    method OnComponentRemoved(c: Component)
      requires Valid()
      modifies this`componentActionMap, this`actionList, this`events
      ensures Valid()
      ensures componentActionMap == old(componentActionMap) - {c}
      ensures Lookup(old(componentActionMap), c) != null ==> Lookup(old(componentActionMap), c).kind == UpdateComponent(c)
      ensures actionList == RemoveMaybe(old(actionList), Lookup(old(componentActionMap), c))
      ensures events == old(events) + Broadcast(listeners, ActionRemoved(Lookup(old(componentActionMap), c)))
    {
      var a := Lookup(componentActionMap, c);
      componentActionMap := componentActionMap - {c};
      RemoveAction(a);
    }

    /** couplingAdded: files a fresh update action under the coupling; the schedule is untouched. */
    method OnCouplingAdded(c: Coupling)
      requires Valid()
      modifies this`couplingActionMap
      ensures Valid()
      ensures c in couplingActionMap && fresh(couplingActionMap[c])
      ensures Spec(couplingActionMap[c]) == ActionSpec(UpdateCoupling(c), c.description)
      ensures couplingActionMap == old(couplingActionMap)[c := couplingActionMap[c]]
    {
      var a := new UpdateAction(UpdateCoupling(c), c.description);
      couplingActionMap := couplingActionMap[c := a];
    }

    /** couplingRemoved: forgets the coupling's action and removes it from the schedule. */
    method OnCouplingRemoved(c: Coupling)
      requires Valid()
      modifies this`couplingActionMap, this`actionList, this`events
      ensures Valid()
      ensures couplingActionMap == old(couplingActionMap) - {c}
      ensures Lookup(old(couplingActionMap), c) != null ==> Lookup(old(couplingActionMap), c).kind == UpdateCoupling(c)
      ensures actionList == RemoveMaybe(old(actionList), Lookup(old(couplingActionMap), c))
      ensures events == old(events) + Broadcast(listeners, ActionRemoved(Lookup(old(couplingActionMap), c)))
    {
      var a := Lookup(couplingActionMap, c);
      couplingActionMap := couplingActionMap - {c};
      RemoveAction(a);
    }

    /** couplingsRemoved: couplingRemoved for each coupling of the batch, in order. */
    method OnCouplingsRemoved(cs: seq<Coupling>)
      requires Valid()
      modifies this`couplingActionMap, this`actionList, this`events
      ensures Valid()
      ensures couplingActionMap == old(couplingActionMap) - KeysOf(cs)
      ensures actionList == RemoveEach(old(actionList), Unmapped(old(couplingActionMap), cs))
      ensures events == old(events) + RemovalNotices(listeners, Unmapped(old(couplingActionMap), cs))
    {
      for i := 0 to |cs|
        invariant Valid()
        invariant couplingActionMap == old(couplingActionMap) - KeysOf(cs[..i])
        invariant actionList == RemoveEach(old(actionList), Unmapped(old(couplingActionMap), cs[..i]))
        invariant events == old(events) + RemovalNotices(listeners, Unmapped(old(couplingActionMap), cs[..i]))
      {
        ghost var (mapBefore, listBefore, logBefore) := (couplingActionMap, actionList, events);
        OnCouplingRemoved(cs[i]);
        BatchRemovalStep(old(couplingActionMap), old(actionList), old(events), listeners, cs, i,
                         mapBefore, listBefore, logBefore, couplingActionMap, actionList, events);
      }
      assert cs[..|cs|] == cs;
    }

    /** Feeds one workspace or coupling-manager callback to the manager. */
    method HandleEvent(e: WorkspaceEvent)
      requires Valid()
      modifies this`componentActionMap, this`couplingActionMap, this`actionList, this`events
      ensures Valid()
      ensures e.WorkspaceCleared? || e.NewWorkspaceOpened? ==> unchanged(this)
      ensures e.ComponentAdded? || e.CouplingAdded? ==>
        actionList == old(actionList) && events == old(events)
      ensures e.ComponentAdded? ==>
        && couplingActionMap == old(couplingActionMap)
        && e.component in componentActionMap && fresh(componentActionMap[e.component])
        && Spec(componentActionMap[e.component]) == ActionSpec(UpdateComponent(e.component), e.component.description)
        && componentActionMap == old(componentActionMap)[e.component := componentActionMap[e.component]]
      ensures e.CouplingAdded? ==>
        && componentActionMap == old(componentActionMap)
        && e.coupling in couplingActionMap && fresh(couplingActionMap[e.coupling])
        && Spec(couplingActionMap[e.coupling]) == ActionSpec(UpdateCoupling(e.coupling), e.coupling.description)
        && couplingActionMap == old(couplingActionMap)[e.coupling := couplingActionMap[e.coupling]]
      ensures e.ComponentRemoved? ==>
        && couplingActionMap == old(couplingActionMap)
        && componentActionMap == old(componentActionMap) - {e.component}
        && actionList == RemoveMaybe(old(actionList), Lookup(old(componentActionMap), e.component))
        && events == old(events) + Broadcast(listeners, ActionRemoved(Lookup(old(componentActionMap), e.component)))
      ensures e.CouplingRemoved? ==>
        && componentActionMap == old(componentActionMap)
        && couplingActionMap == old(couplingActionMap) - {e.coupling}
        && actionList == RemoveMaybe(old(actionList), Lookup(old(couplingActionMap), e.coupling))
        && events == old(events) + Broadcast(listeners, ActionRemoved(Lookup(old(couplingActionMap), e.coupling)))
      ensures e.CouplingsRemoved? ==>
        && componentActionMap == old(componentActionMap)
        && couplingActionMap == old(couplingActionMap) - KeysOf(e.couplings)
        && actionList == RemoveEach(old(actionList), Unmapped(old(couplingActionMap), e.couplings))
        && events == old(events) + RemovalNotices(listeners, Unmapped(old(couplingActionMap), e.couplings))
    {
      match e
      case WorkspaceCleared =>
      case NewWorkspaceOpened =>
      case ComponentAdded(c) => OnComponentAdded(c);
      case ComponentRemoved(c) => OnComponentRemoved(c);
      case CouplingAdded(c) => OnCouplingAdded(c);
      case CouplingRemoved(c) => OnCouplingRemoved(c);
      case CouplingsRemoved(cs) => OnCouplingsRemoved(cs);
    }

    /**
     * Builds, afresh, every action that could be added now: update all, a
     * delay, one per live component, one per live coupling. `components` and
     * `couplings` are the updater's and the workspace's current lists.
     */
    method GetAvailableActionList(components: seq<Component>, couplings: seq<Coupling>)
      returns (available: seq<UpdateAction>)
      ensures |available| == 2 + |components| + |couplings|
      ensures forall k :: 0 <= k < |available| ==>
        Spec(available[k]) == AvailableSpecs(updateAllDescription, delayDescription, components, couplings)[k]
      ensures forall k :: 0 <= k < |available| ==> fresh(available[k])
      ensures forall k, l :: 0 <= k < l < |available| ==> available[k] != available[l]
    {
      ghost var specs := AvailableSpecs(updateAllDescription, delayDescription, components, couplings);
      var updateAll := new UpdateAction(UpdateAll, updateAllDescription);
      var delay := new UpdateAction(Delay, delayDescription);
      available := [updateAll, delay];
      for i := 0 to |components|
        invariant |available| == 2 + i
        invariant forall k :: 0 <= k < |available| ==> Spec(available[k]) == specs[k]
        invariant forall k :: 0 <= k < |available| ==> fresh(available[k])
        invariant forall k, l :: 0 <= k < l < |available| ==> available[k] != available[l]
      {
        var a := new UpdateAction(UpdateComponent(components[i]), components[i].description);
        available := available + [a];
      }
      for j := 0 to |couplings|
        invariant |available| == 2 + |components| + j
        invariant forall k :: 0 <= k < |available| ==> Spec(available[k]) == specs[k]
        invariant forall k :: 0 <= k < |available| ==> fresh(available[k])
        invariant forall k, l :: 0 <= k < l < |available| ==> available[k] != available[l]
      {
        var a := new UpdateAction(UpdateCoupling(couplings[j]), couplings[j].description);
        available := available + [a];
      }
    }

    /**
     * The first available action whose description equals `toFind` ignoring
     * case, or null when none does.
     */
    method GetAction(toFind: string, components: seq<Component>, couplings: seq<Coupling>)
      returns (found: UpdateAction?)
      ensures var specs := AvailableSpecs(updateAllDescription, delayDescription, components, couplings);
        && (found == null <==> FindDescription(specs, toFind).None?)
        && (found != null ==> Spec(found) == specs[FindDescription(specs, toFind).value])
      ensures found != null ==> fresh(found)
    {
      ghost var specs := AvailableSpecs(updateAllDescription, delayDescription, components, couplings);
      var available := GetAvailableActionList(components, couplings);
      for i := 0 to |available|
        invariant forall k :: 0 <= k < i ==> !EqualsIgnoreCase(specs[k].description, toFind)
      {
        if EqualsIgnoreCase(available[i].description, toFind) {
          return available[i];
        }
      }
      return null;
    }

    /** Same search as GetAction, under the name scripts use. */
    method GetUpdateAction(toFind: string, components: seq<Component>, couplings: seq<Coupling>)
      returns (found: UpdateAction?)
      ensures var specs := AvailableSpecs(updateAllDescription, delayDescription, components, couplings);
        && (found == null <==> forall k :: 0 <= k < |specs| ==> !EqualsIgnoreCase(specs[k].description, toFind))
        && (found != null ==> Spec(found) == specs[FindDescription(specs, toFind).value])
      ensures found != null ==> fresh(found)
    {
      found := GetAction(toFind, components, couplings);
    }
  }

}
