/** The owner metadata: `recovered_from` is recorded exactly when the previous owner record was
    never marked as released. */
module LeaseRecovery {
  import opened Prelude
  import opened LeaseMachine
  import opened LeaseExclusion

  function LastRecord(history: seq<Write>): Metadata {
    if history == [] then NoRecord
    else match history[|history| - 1]
      case OwnerWrite(id, _) => ActiveRecord(id)
      case MarkerWrite(id) => ReleasedRecord(id)
  }

  /** A write is justified by the writes before it: a marker directly follows the owner record it
      marks, and an owner record names as recovered exactly the unmarked record it replaces. */
  ghost predicate Justified(history: seq<Write>, k: nat)
    requires k < |history|
  {
    match history[k]
    case MarkerWrite(id) => LastRecord(history[..k]) == ActiveRecord(id)
    case OwnerWrite(id, recovered) => recovered == Recovered(LastRecord(history[..k]))
  }

  ghost predicate Unmarked(history: seq<Write>, id: LeaseId) {
    forall k | 0 <= k < |history| :: history[k] != MarkerWrite(id)
  }

  /** What the metadata file's fate depends on: its history, the record `own` that the kernel-lock
      holder has put in place and not yet marked, and the record it is about to write. */
  datatype View = View(metadata: Metadata, history: seq<Write>, nextId: LeaseId, abandoned: set<LeaseId>,
                       own: Option<LeaseId>, draft: Option<Write>)

  function Own(s: State, a: Actor): Option<LeaseId> {
    if s.T(a).phase.Written? then Some(s.T(a).phase.id)
    else if s.T(a).depth > 0 && !s.T(a).phase.Marked? && !s.T(a).phase.Unlocked? then s.P(a.pid).payload
    else None
  }

  function Draft(s: State, a: Actor): Option<Write> {
    if s.T(a).phase.Writing? then Some(OwnerWrite(s.T(a).phase.id, s.T(a).phase.recovered)) else None
  }

  function ViewOf(s: State): View {
    View(s.metadata, s.history, s.nextId, s.abandoned,
         if s.kernel.Some? then Own(s, s.kernel.value) else None,
         if s.kernel.Some? then Draft(s, s.kernel.value) else None)
  }

  ghost predicate HistoryInv(v: View) {
    && v.metadata == LastRecord(v.history)
    && (forall k | 0 <= k < |v.history| :: Justified(v.history, k) && v.history[k].id < v.nextId)
    && (forall k, l | 0 <= k < l < |v.history| && v.history[k].OwnerWrite? && v.history[l].OwnerWrite? ::
          v.history[k].id < v.history[l].id)
    && (forall k | 0 <= k < |v.history| && v.history[k].OwnerWrite? && v.history[k].recovered.Some? ::
          v.history[k].recovered.value in v.abandoned)
  }

  ghost predicate OwnerInv(v: View) {
    && (v.own.Some? ==> v.metadata == ActiveRecord(v.own.value) && v.own.value !in v.abandoned)
    && (v.own.Some? ==> v.draft.None?)
    && (v.metadata.ActiveRecord? ==> v.own == Some(v.metadata.id) || v.metadata.id in v.abandoned)
    && (v.draft.Some? ==> DraftInv(v, v.draft.value))
    && (forall id | id in v.abandoned :: id < v.nextId && Unmarked(v.history, id))
  }

  ghost predicate DraftInv(v: View, w: Write) {
    && w.OwnerWrite? && w.id < v.nextId && w.id !in v.abandoned && w.recovered == Recovered(v.metadata)
    && forall k | 0 <= k < |v.history| :: v.history[k].id < w.id
  }

  ghost predicate ViewInv(v: View) {
    HistoryInv(v) && OwnerInv(v)
  }

  function Appended(v: View, w: Write): View {
    v.(history := v.history + [w], metadata := LastRecord(v.history + [w]), draft := None,
       own := if w.OwnerWrite? then Some(w.id) else None)
  }

  lemma AppendKeepsHistory(v: View, w: Write)
    requires HistoryInv(v) && w.id < v.nextId
    requires match w
      case MarkerWrite(id) => v.metadata == ActiveRecord(id)
      case OwnerWrite(id, recovered) =>
        recovered == Recovered(v.metadata) && (recovered.Some? ==> recovered.value in v.abandoned) &&
        forall k | 0 <= k < |v.history| :: v.history[k].id < id
    ensures HistoryInv(Appended(v, w))
  {
    var longer := v.history + [w];
    forall k | 0 <= k < |longer| ensures Justified(longer, k) {
      assert longer[..k] == v.history[..k];
      if k == |v.history| {
        assert v.history[..k] == v.history;
      } else {
        assert Justified(v.history, k);
      }
    }
  }

  lemma AppendKeeps(v: View, w: Write)
    requires ViewInv(v)
    requires if w.OwnerWrite? then v.draft == Some(w) else v.own == Some(w.id)
    ensures ViewInv(Appended(v, w))
  {
    if w.MarkerWrite? && v.history != [] {
      var last := v.history[|v.history| - 1];
      assert last.id < v.nextId;
    }
    AppendKeepsHistory(v, w);
  }

  lemma AbandonKeeps(v: View)
    requires ViewInv(v) && v.own.Some?
    ensures ViewInv(v.(own := None, abandoned := v.abandoned + {v.own.value}))
  {
    var id := v.own.value;
    assert v.history[|v.history| - 1].id == id;
    OwnIsUnmarked(v, id);
  }

  lemma MarkerFollowsItsRecord(history: seq<Write>, k: nat)
    requires k < |history| && history[k].MarkerWrite? && Justified(history, k)
    ensures k > 0 && history[k - 1].OwnerWrite? && history[k - 1].id == history[k].id
  {
    assert history[..k] != [];
    assert history[..k][k - 1] == history[k - 1];
  }

  lemma OwnIsUnmarked(v: View, id: LeaseId)
    requires HistoryInv(v) && v.metadata == ActiveRecord(id)
    ensures Unmarked(v.history, id)
  {
    var n := |v.history| - 1;
    forall k | 0 <= k < |v.history| ensures v.history[k] != MarkerWrite(id) {
      if v.history[k].MarkerWrite? {
        MarkerFollowsItsRecord(v.history, k);
        assert v.history[k - 1].id < v.history[n].id;
      }
    }
  }

  lemma StepKeepsView(s: State, act: Action)
    requires LockInv(s) && ViewInv(ViewOf(s)) && Enabled(s, act)
    ensures ViewInv(ViewOf(Apply(s, act)))
  {
    match act {
      case Crash(p) => CrashKeepsView(s, p);
      case ReadOwner(a) => ReadOwnerView(s, a);
      case WriteOwner(a) => WriteOwnerView(s, a); AppendKeeps(ViewOf(s), ViewOf(s).draft.value);
      case WriteOwnerFails(a) => WriteOwnerFailsView(s, a);
      case SyncFails(a) => AbandonView(s, act); AbandonKeeps(ViewOf(s));
      case MarkerFails(a) => AbandonView(s, act); AbandonKeeps(ViewOf(s));
      case WriteMarker(a) => WriteMarkerView(s, a); AppendKeeps(ViewOf(s), MarkerWrite(ViewOf(s).own.value));
      case _ => QuietStep(s, act);
    }
  }

  lemma ReadOwnerView(s: State, a: Actor)
    requires LockInv(s) && ViewInv(ViewOf(s)) && Enabled(s, ReadOwner(a))
    ensures ViewInv(ViewOf(Apply(s, ReadOwner(a))))
  {
    assert ThreadInv(s, a);
    var v := ViewOf(s);
    assert ViewOf(Apply(s, ReadOwner(a))) ==
           v.(nextId := v.nextId + 1, draft := Some(OwnerWrite(v.nextId, Recovered(v.metadata))));
  }

  lemma WriteOwnerView(s: State, a: Actor)
    requires LockInv(s) && Enabled(s, WriteOwner(a))
    ensures ViewOf(s).draft.Some? && ViewOf(s).draft.value.OwnerWrite?
    ensures ViewOf(Apply(s, WriteOwner(a))) == Appended(ViewOf(s), ViewOf(s).draft.value)
  {
    assert ThreadInv(s, a);
  }

  lemma WriteOwnerFailsView(s: State, a: Actor)
    requires LockInv(s) && ViewInv(ViewOf(s)) && Enabled(s, WriteOwnerFails(a))
    ensures ViewInv(ViewOf(Apply(s, WriteOwnerFails(a))))
  {
    assert ThreadInv(s, a);
    assert ViewOf(Apply(s, WriteOwnerFails(a))) == ViewOf(s).(draft := None);
  }

  lemma WriteMarkerView(s: State, a: Actor)
    requires LockInv(s) && Enabled(s, WriteMarker(a))
    ensures ViewOf(s).own.Some?
    ensures ViewOf(Apply(s, WriteMarker(a))) == Appended(ViewOf(s), MarkerWrite(ViewOf(s).own.value))
  {
    assert ThreadInv(s, a);
  }

  lemma AbandonView(s: State, act: Action)
    requires LockInv(s) && Enabled(s, act) && (act.SyncFails? || act.MarkerFails?)
    ensures var v := ViewOf(s);
      v.own.Some? && ViewOf(Apply(s, act)) == v.(own := None, abandoned := v.abandoned + {v.own.value}, draft := None)
    ensures ViewOf(s).draft.None?
  {
    assert ThreadInv(s, act.a);
  }

  /** Every other step leaves the metadata file and its claimant alone. */
  lemma QuietStep(s: State, act: Action)
    requires LockInv(s) && Enabled(s, act)
    requires act.TakeThreadLock? || act.OpenFile? || act.OpenFails? || act.TryLock? || act.GiveUp? ||
             act.Interrupt? || act.FinishAcquire? || act.ReleaseInner? || act.StartRelease? || act.Unlock? || act.FinishRelease?
    ensures ViewOf(Apply(s, act)) == ViewOf(s)
  {
    assert ThreadInv(s, act.a) && ProcessInv(s, act.a.pid);
    if s.kernel.Some? {
      assert ThreadInv(s, s.kernel.value) && ProcessInv(s, s.kernel.value.pid);
    }
  }

  lemma CrashKeepsView(s: State, p: Pid)
    requires LockInv(s) && ViewInv(ViewOf(s))
    ensures ViewInv(ViewOf(Apply(s, Crash(p))))
  {
    var v, v' := ViewOf(s), ViewOf(Apply(s, Crash(p)));
    if s.kernel.Some? && s.kernel.value.pid == p {
      assert ThreadInv(s, s.kernel.value) && ProcessInv(s, p);
      if v.own.Some? {
        AbandonKeeps(v);
        assert v' == v.(own := None, abandoned := v.abandoned + {v.own.value});
      } else {
        assert v'.abandoned == v.abandoned;
        assert v' == v.(draft := None);
      }
    } else {
      assert v' == v;
    }
  }

  lemma {:induction false} ViewInvReachable(s: State, acts: seq<Action>)
    requires LockInv(s) && ViewInv(ViewOf(s)) && Schedulable(s, acts)
    ensures ViewInv(ViewOf(Run(s, acts)))
    decreases |acts|
  {
    if acts != [] {
      LockInvStep(s, acts[0]);
      StepKeepsView(s, acts[0]);
      ViewInvReachable(Apply(s, acts[0]), acts[1..]);
    }
  }

  /** In any schedule, the k-th metadata write, if it is an owner record, names a recovered lease
      exactly when the write before it is an owner record too, that is, when the last process to
      write one never wrote its released marker; and the lease it names is that one, its writer
      crashed, failed to write the marker or failed after the rename, and it never will be marked. */
  lemma RecoveryIsExact(acts: seq<Action>, k: nat)
    requires Schedulable(Start, acts)
    requires k < |Run(Start, acts).history| && Run(Start, acts).history[k].OwnerWrite?
    ensures var s := Run(Start, acts);
      var recovered := s.history[k].recovered;
      && (recovered.Some? <==> k > 0 && s.history[k - 1].OwnerWrite?)
      && (recovered.Some? ==> recovered.value == s.history[k - 1].id && recovered.value in s.abandoned)
      && (recovered.Some? ==> Unmarked(s.history, recovered.value))
  {
    ViewInvReachable(Start, acts);
    var s := Run(Start, acts);
    assert Justified(s.history, k);
    if k > 0 {
      assert s.history[..k][|s.history[..k]| - 1] == s.history[k - 1];
    }
  }
}
