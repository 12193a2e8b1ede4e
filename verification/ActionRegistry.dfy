/**
  The registry of actions: a list of entries, each counted by the shares that refer to it and erased
  when the last of them is destroyed.
 */
module ActionRegistry {
  import opened Wrappers

  type Action = nat
  type EntryId = nat
  type ShareId = nat

  datatype Index = Index(counter: nat, action: Option<Action>)

  /**
    A share refers to an entry or, without a registry, to nothing.  registered entries were made so far;
    overwritten holds an entry once for each time a share on it was assigned to.
   */
  datatype Registry = Registry(entries: map<EntryId, Index>, shares: map<ShareId, Option<EntryId>>,
                               registered: nat, overwritten: multiset<EntryId>)

  const INITIAL := Registry(map[], map[], 0, multiset{})

  datatype Event =
    | Default(s: ShareId)
    | Register(s: ShareId, action: Action)
    | Copy(s: ShareId, from: ShareId)
    | Move(s: ShareId, from: ShareId)
    | CopyAssign(s: ShareId, from: ShareId)
    | MoveAssign(s: ShareId, from: ShareId)
    | Destroy(s: ShareId)
    | Erase(s: ShareId)

  /** New shares are new, and the others live. */
  predicate Enabled(r: Registry, e: Event) {
    match e
    case Default(s) => s !in r.shares
    case Register(s, _) => s !in r.shares
    case Copy(s, from) => s !in r.shares && from in r.shares
    case Move(s, from) => s !in r.shares && from in r.shares
    case CopyAssign(s, from) => s in r.shares && from in r.shares
    case MoveAssign(s, from) => s in r.shares && from in r.shares
    case Destroy(s) => s in r.shares
    case Erase(s) => s in r.shares
  }

  // What the operations do; a share must not refer to an entry that was erased

  ghost predicate NoDangling(r: Registry) {
    forall s :: s in r.shares && r.shares[s].Some? ==> r.shares[s].value in r.entries
  }

  function Counted(entries: map<EntryId, Index>, at: Option<EntryId>): (r: map<EntryId, Index>)
    requires at.Some? ==> at.value in entries
  {
    match at
    case None => entries
    case Some(e) => entries[e := entries[e].(counter := entries[e].counter + 1)]
  }

  function Released(entries: map<EntryId, Index>, at: Option<EntryId>): (r: map<EntryId, Index>)
    requires at.Some? ==> at.value in entries && entries[at.value].counter > 0
  {
    match at
    case None => entries
    case Some(e) =>
      if entries[e].counter == 1 then entries - {e}
      else entries[e := entries[e].(counter := entries[e].counter - 1)]
  }

  function Lost(at: Option<EntryId>): (r: multiset<EntryId>) {
    if at.Some? then multiset{at.value} else multiset{}
  }

  function Apply(r: Registry, e: Event): (r': Registry)
    requires Enabled(r, e) && NoDangling(r) && Positive(r)
  {
    match e
    case Default(s) => r.(shares := r.shares[s := None])
    case Register(s, action) =>
      r.(entries := r.entries[r.registered := Index(1, Some(action))],
         shares := r.shares[s := Some(r.registered)], registered := r.registered + 1)
    case Copy(s, from) =>
      r.(entries := Counted(r.entries, r.shares[from]), shares := r.shares[s := r.shares[from]])
    case Move(s, from) =>
      r.(shares := r.shares[s := r.shares[from]][from := None])
    case CopyAssign(s, from) =>
      if s == from then r
      else
        r.(entries := Counted(r.entries, r.shares[from]), shares := r.shares[s := r.shares[from]],
           overwritten := r.overwritten + Lost(r.shares[s]))
    case MoveAssign(s, from) =>
      if s == from then r
      else
        r.(shares := r.shares[s := r.shares[from]][from := None],
           overwritten := r.overwritten + Lost(r.shares[s]))
    case Destroy(s) =>
      r.(entries := Released(r.entries, r.shares[s]), shares := r.shares - {s})
    case Erase(s) =>
      match r.shares[s]
      case None => r
      case Some(n) => r.(entries := r.entries[n := r.entries[n].(action := None)])
  }

  ghost predicate Positive(r: Registry) {
    forall e :: e in r.entries ==> r.entries[e].counter > 0
  }

  /** The live shares on an entry. */
  ghost function On(shares: map<ShareId, Option<EntryId>>, e: EntryId): (r: set<ShareId>) {
    set s | s in shares && shares[s] == Some(e)
  }

  /** Each counter is the number of live shares and of overwritten ones; what is counted is there, and nothing else. */
  ghost predicate Exact(r: Registry) {
    && Positive(r)
    && (forall e :: e >= r.registered ==> e !in r.entries)
    && forall e :: ExactAt(r, e)
  }

  ghost predicate ExactAt(r: Registry, e: EntryId) {
    Count(r.entries, e) == |On(r.shares, e)| + r.overwritten[e]
  }

  function Count(entries: map<EntryId, Index>, e: EntryId): (n: nat) {
    if e in entries then entries[e].counter else 0
  }

  function One(at: Option<EntryId>, e: EntryId): (n: nat) {
    if at == Some(e) then 1 else 0
  }

  lemma ExactMeansNoDangling(r: Registry)
    requires Exact(r)
    ensures NoDangling(r)
  {
    forall s | s in r.shares && r.shares[s].Some?
      ensures r.shares[s].value in r.entries
    {
      var e := r.shares[s].value;
      assert s in On(r.shares, e) && ExactAt(r, e);
    }
  }

  lemma ShareSet(shares: map<ShareId, Option<EntryId>>, s: ShareId, at: Option<EntryId>, e: EntryId)
    ensures |On(shares[s := at], e)| ==
            |On(shares, e)| + One(at, e) - if s in shares then One(shares[s], e) else 0
  {
    var before, after := On(shares, e), On(shares[s := at], e);
    assert after == if at == Some(e) then before + {s} else before - {s};
  }

  lemma ShareGone(shares: map<ShareId, Option<EntryId>>, s: ShareId, e: EntryId)
    requires s in shares
    ensures |On(shares - {s}, e)| == |On(shares, e)| - One(shares[s], e)
  {
    assert On(shares - {s}, e) == On(shares, e) - {s};
  }

  lemma StepKeepsAt(r: Registry, ev: Event, e: EntryId)
    requires Positive(r) && r.registered !in r.entries && NoDangling(r) && Enabled(r, ev) && ExactAt(r, e)
    ensures ExactAt(Apply(r, ev), e)
  {
    hide Positive, On;
    match ev
    case Default(s) => ShareSet(r.shares, s, None, e);
    case Register(s, _) => ShareSet(r.shares, s, Some(r.registered), e);
    case Copy(s, from) => ShareSet(r.shares, s, r.shares[from], e);
    case Move(s, from) =>
      ShareSet(r.shares, s, r.shares[from], e);
      ShareSet(r.shares[s := r.shares[from]], from, None, e);
    case CopyAssign(s, from) => ShareSet(r.shares, s, r.shares[from], e);
    case MoveAssign(s, from) =>
      ShareSet(r.shares, s, r.shares[from], e);
      ShareSet(r.shares[s := r.shares[from]], from, None, e);
    case Destroy(s) => ShareGone(r.shares, s, e);
    case Erase(_) =>
  }

  /** Every operation keeps the counters exact. */
  lemma StepKeeps(r: Registry, ev: Event)
    requires Exact(r) && NoDangling(r) && Enabled(r, ev)
    ensures Exact(Apply(r, ev)) && NoDangling(Apply(r, ev))
  {
    hide ExactAt;
    forall e
      ensures ExactAt(Apply(r, ev), e)
    {
      StepKeepsAt(r, ev, e);
    }
    ExactMeansNoDangling(Apply(r, ev));
  }

  /** An entry keeps its action until it is erased through a share on it. */
  lemma StepKeepsActions(r: Registry, ev: Event, e: EntryId)
    requires Exact(r) && Enabled(r, ev) && NoDangling(r) && e in r.entries && e in Apply(r, ev).entries
    ensures Apply(r, ev).entries[e].action == if ev.Erase? && r.shares[ev.s] == Some(e) then None else r.entries[e].action
  {
  }

  /** Runs from a state with exact counters. */
  ghost predicate IsRun(r: Registry, run: seq<Event>)
    requires Exact(r)
    decreases |run|
  {
    ExactMeansNoDangling(r);
    run == [] ||
    (Enabled(r, run[0]) && (StepKeeps(r, run[0]); IsRun(Apply(r, run[0]), run[1..])))
  }

  ghost function After(r: Registry, run: seq<Event>): (r': Registry)
    requires Exact(r) && IsRun(r, run)
    ensures Exact(r')
    decreases |run|
  {
    if run == [] then r
    else
      ExactMeansNoDangling(r);
      StepKeeps(r, run[0]);
      After(Apply(r, run[0]), run[1..])
  }

  lemma InitialExact()
    ensures Exact(INITIAL)
  {
    forall e
      ensures ExactAt(INITIAL, e)
    {
      assert On(INITIAL.shares, e) == {};
    }
  }

  /**
    After every run no live share refers to an erased entry, and an entry that was registered is erased
    exactly when no share is on it and none on it was ever overwritten.
   */
  lemma ErasedExactly(run: seq<Event>, e: EntryId)
    ensures Exact(INITIAL)
    ensures IsRun(INITIAL, run) ==>
              var r := After(INITIAL, run);
              && NoDangling(r)
              && (e !in r.entries <==> On(r.shares, e) == {} && r.overwritten[e] == 0)
              && (e in r.entries ==> r.entries[e].counter == |On(r.shares, e)| + r.overwritten[e])
  {
    InitialExact();
    if IsRun(INITIAL, run) {
      var r := After(INITIAL, run);
      ExactMeansNoDangling(r);
      assert ExactAt(r, e);
    }
  }

  /** Someone erased the action of an entry during the run. */
  ghost predicate Erases(r: Registry, run: seq<Event>, e: EntryId)
    requires Exact(r) && IsRun(r, run)
    decreases |run|
  {
    ExactMeansNoDangling(r);
    run != [] &&
    ((run[0].Erase? && r.shares[run[0].s] == Some(e)) || (StepKeeps(r, run[0]); Erases(Apply(r, run[0]), run[1..], e)))
  }

  /** While an entry is there, its shares find its action, or nothing exactly when someone erased it. */
  lemma {:induction false} RunKeepsActions(r: Registry, run: seq<Event>, e: EntryId)
    requires Exact(r) && IsRun(r, run) && e in r.entries && e in After(r, run).entries
    ensures After(r, run).entries[e].action == if Erases(r, run, e) then None else r.entries[e].action
    decreases |run|
  {
    if run == [] {
    } else {
      ExactMeansNoDangling(r);
      StepKeeps(r, run[0]);
      if e !in Apply(r, run[0]).entries {
        GoneIsGone(Apply(r, run[0]), run[1..], e);
      }
      StepKeepsActions(r, run[0], e);
      hide Exact, Apply, Enabled, NoDangling;
      RunKeepsActions(Apply(r, run[0]), run[1..], e);
    }
  }

  /** No entry comes back. */
  lemma {:induction false} GoneIsGone(r: Registry, run: seq<Event>, e: EntryId)
    requires Exact(r) && IsRun(r, run) && e !in r.entries && e < r.registered
    ensures e !in After(r, run).entries
    decreases |run|
  {
    if run == [] {
    } else {
      ExactMeansNoDangling(r);
      StepKeeps(r, run[0]);
      GoneIsGone(Apply(r, run[0]), run[1..], e);
    }
  }

  /** An assignment over a share on an entry keeps the entry for ever. */
  lemma OverwritingLeaks(r: Registry, s: ShareId, from: ShareId, assign: Event, run: seq<Event>)
    requires Exact(r) && s in r.shares && from in r.shares && r.shares[s].Some? && s != from
    requires assign == CopyAssign(s, from) || assign == MoveAssign(s, from)
    requires IsRun(r, [assign] + run)
    ensures r.shares[s].value in After(r, [assign] + run).entries
  {
    var all := [assign] + run;
    ExactMeansNoDangling(r);
    StepKeeps(r, all[0]);
    assert all[1..] == run;
    OverwrittenStays(Apply(r, all[0]), run, r.shares[s].value);
  }

  lemma {:induction false} OverwrittenStays(r: Registry, run: seq<Event>, e: EntryId)
    requires Exact(r) && IsRun(r, run) && e in r.overwritten
    ensures e in After(r, run).entries
    decreases |run|
  {
    if run == [] {
      assert ExactAt(r, e);
    } else {
      ExactMeansNoDangling(r);
      StepKeeps(r, run[0]);
      OverwrittenStays(Apply(r, run[0]), run[1..], e);
    }
  }

  class ActionRegistry {
    var entries: map<EntryId, Index>
    var shares: map<ShareId, Option<EntryId>>
    var registered: nat
    ghost var overwritten: multiset<EntryId>

    ghost function State(): (r: Registry)
      reads this
    {
      Registry(entries, shares, registered, overwritten)
    }

    /** The counters are exact, so no share refers to an entry that is gone. */
    ghost predicate Valid()
      reads this
    {
      Exact(State()) && NoDangling(State())
    }

    constructor ()
      ensures Valid() && State() == INITIAL
    {
      entries, shares, registered, overwritten := map[], map[], 0, multiset{};
      new;
      InitialExact();
    }

    /** The new entry has no other share. */
    method RegisterAction(s: ShareId, action: Action)
      requires Valid() && s !in shares
      modifies this
      ensures Valid() && State() == Apply(old(State()), Register(s, action))
      ensures shares[s].Some? && shares[s].value !in old(entries) && On(shares, shares[s].value) == {s}
      ensures entries == old(entries)[shares[s].value := Index(1, Some(action))]
    {
      StepKeeps(State(), Register(s, action));
      NoShareYet(State());
      ghost var after := Apply(State(), Register(s, action));
      entries := entries[registered := Index(0, Some(action))];
      shares := shares[s := Some(registered)];
      CountUp(registered);
      registered := registered + 1;
      assert State() == after;
    }

    method CountUp(e: EntryId)
      requires e in entries
      modifies `entries
      ensures entries == Counted(old(entries), Some(e))
    {
      entries := entries[e := entries[e].(counter := entries[e].counter + 1)];
    }

    /** Both shares now keep the entry. */
    method CopyShare(s: ShareId, from: ShareId)
      requires Valid() && s !in shares && from in shares
      modifies this
      ensures Valid() && State() == Apply(old(State()), Copy(s, from))
      ensures forall e :: shares[from] == Some(e) ==> On(shares, e) == On(old(shares), e) + {s} && s !in On(old(shares), e)
    {
      StepKeeps(State(), Copy(s, from));
      shares := shares[s := shares[from]];
      if shares[s].Some? {
        CountUp(shares[s].value);
      }
    }

    /** The new share takes the place of the old one. */
    method MoveShare(s: ShareId, from: ShareId)
      requires Valid() && s !in shares && from in shares
      modifies this
      ensures Valid() && State() == Apply(old(State()), Move(s, from)) && entries == old(entries)
      ensures forall e :: old(shares)[from] == Some(e) ==> On(shares, e) == On(old(shares), e) - {from} + {s}
    {
      StepKeeps(State(), Move(s, from));
      shares := shares[s := shares[from]];
      shares := shares[from := None];
    }

    /** The entry that the share was on stays, whoever else is on it. */
    method AssignCopy(s: ShareId, from: ShareId)
      requires Valid() && s in shares && from in shares
      modifies this
      ensures Valid() && State() == Apply(old(State()), CopyAssign(s, from)) && shares[s] == old(shares)[from]
      ensures forall e :: s != from && old(shares)[s] == Some(e) ==> e in entries && e in overwritten
    {
      StepKeeps(State(), CopyAssign(s, from));
      OverwrittenIsThere(Apply(State(), CopyAssign(s, from)));
      if s != from {
        overwritten := overwritten + Lost(shares[s]);
        shares := shares[s := shares[from]];
        if shares[s].Some? {
          CountUp(shares[s].value);
        }
      }
    }

    method AssignMove(s: ShareId, from: ShareId)
      requires Valid() && s in shares && from in shares
      modifies this
      ensures Valid() && State() == Apply(old(State()), MoveAssign(s, from)) && shares[s] == old(shares)[from]
      ensures forall e :: s != from && old(shares)[s] == Some(e) ==> e in entries && e in overwritten
    {
      StepKeeps(State(), MoveAssign(s, from));
      OverwrittenIsThere(Apply(State(), MoveAssign(s, from)));
      if s != from {
        overwritten := overwritten + Lost(shares[s]);
        shares := shares[s := shares[from]];
        shares := shares[from := None];
      }
    }

    /** The entry goes exactly when no share is left on it and none on it was overwritten. */
    method DestroyShare(s: ShareId)
      requires Valid() && s in shares
      modifies this
      ensures Valid() && State() == Apply(old(State()), Destroy(s)) && s !in shares
      ensures forall e :: e in old(entries) ==> (e in entries <==> On(shares, e) != {} || e in overwritten)
    {
      StepKeeps(State(), Destroy(s));
      ghost var after := Apply(State(), Destroy(s));
      ThereIff(after);
      if shares[s].Some? {
        var e := shares[s].value;
        entries := entries[e := entries[e].(counter := entries[e].counter - 1)];
        if entries[e].counter == 0 {
          entries := entries - {e};
        }
      }
      shares := shares - {s};
      assert State() == after;
    }

    /** No share on the entry finds the action any more, and none loses the entry. */
    method EraseAction(s: ShareId)
      requires Valid() && s in shares
      modifies this
      ensures Valid() && State() == Apply(old(State()), Erase(s))
      ensures shares == old(shares) && entries.Keys == old(entries).Keys
      ensures forall t :: t in shares && shares[t].Some? && shares[t] == shares[s] ==> entries[shares[t].value].action == None
    {
      StepKeeps(State(), Erase(s));
      if shares[s].Some? {
        var e := shares[s].value;
        entries := entries[e := entries[e].(action := None)];
      }
    }

    method Get(s: ShareId) returns (action: Option<Action>)
      requires Valid() && s in shares
      ensures action == if shares[s].Some? then entries[shares[s].value].action else None
    {
      action := None;
      if shares[s].Some? {
        action := entries[shares[s].value].action;
      }
    }
  }

  lemma ThereIff(r: Registry)
    requires Exact(r)
    ensures forall e :: e in r.entries <==> On(r.shares, e) != {} || e in r.overwritten
  {
    forall e
      ensures e in r.entries <==> On(r.shares, e) != {} || e in r.overwritten
    {
      assert ExactAt(r, e);
    }
  }

  lemma OverwrittenIsThere(r: Registry)
    requires Exact(r)
    ensures forall e :: e in r.overwritten ==> e in r.entries
  {
    ThereIff(r);
  }

  lemma NoShareYet(r: Registry)
    requires Exact(r)
    ensures r.registered !in r.entries && On(r.shares, r.registered) == {}
  {
    ThereIff(r);
  }
}
