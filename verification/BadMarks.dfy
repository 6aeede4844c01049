/** Bad marks over everything the manager ever writes to the store. A mark is set on a copy of
    the volume whose base alone is written back, so no replica record ever carries one. */
module BadMarks {
  import opened StoreTypes
  import opened StoreKeys
  import StoreView
  import opened Instances

  /** No replica record carries a bad mark. */
  ghost predicate Unmarked(c: Content) {
    forall s {:trigger MarkAt(c, s)} :: MarkAt(c, s) == ""
  }

  function MarkAt(c: Content, s: Slot): string {
    if s in c && c[s].ReplicaValue? then c[s].replica.badTimestamp else ""
  }

  /** The manager's writes: instance requests, volume bases saved when a volume is created or
      updated, bad marks, hosts, settings, and deletions of any slots. */
  datatype Write =
    | Schedule(event: Event)
    | SaveBase(volume: Volume)
    | MarkBad(volumeName: string, replica: string, now: string)
    | SaveHost(host: Host)
    | SaveSettings(settings: Settings)
    | Erase(slots: set<Slot>)

  lemma StepFits(w: World, e: Event)
    requires AllFit(w.content)
    ensures AllFit(Step(w, e).content)
  {
    var c' := Step(w, e).content;
    forall s | s in c' ensures Fits(s, c'[s]) {
      if s in w.content {
        assert Fits(s, w.content[s]);
      }
    }
  }

  function Written(w: World, x: Write): (w': World)
    requires AllFit(w.content)
    ensures AllFit(w'.content)
  {
    match x
    case Schedule(e) =>
      StepFits(w, e);
      Step(w, e)
    case SaveBase(volume) =>
      w.(content := w.content[BaseSlot(volume.name) := VolumeValue(StoreView.BaseOf(volume))])
    case MarkBad(v, replica, now) =>
      var volume := StoreView.VolumeOf(w.content, v);
      if volume.None? then w
      else
        assert Fits(BaseSlot(v), w.content[BaseSlot(v)]);
        var marked := StoreView.Marked(volume.value, replica, now);
        w.(content := w.content[BaseSlot(v) := VolumeValue(StoreView.BaseOf(marked))])
    case SaveHost(host) => w.(content := w.content[HostSlot(host.uuid) := HostValue(host)])
    case SaveSettings(settings) => w.(content := w.content[SettingsSlot := SettingsValue(settings)])
    case Erase(slots) => w.(content := w.content - slots)
  }

  function WrittenAll(w: World, writes: seq<Write>): (w': World)
    requires AllFit(w.content)
    ensures AllFit(w'.content)
    decreases |writes|
  {
    if writes == [] then w else WrittenAll(Written(w, writes[0]), writes[1..])
  }

  lemma WriteKeepsUnmarked(w: World, x: Write)
    requires AllFit(w.content) && Unmarked(w.content)
    ensures Unmarked(Written(w, x).content)
  {
    var c' := Written(w, x).content;
    forall s ensures MarkAt(c', s) == "" {
      assert MarkAt(w.content, s) == "";
    }
  }

  /** In every store the manager's writes can reach from an unmarked one, such as the empty
      store, no replica is marked bad, whatever was marked on the way. */
  lemma {:induction false} NoMarkIsEverStored(w: World, writes: seq<Write>)
    requires AllFit(w.content) && Unmarked(w.content)
    ensures Unmarked(WrittenAll(w, writes).content)
    decreases |writes|
  {
    if writes != [] {
      WriteKeepsUnmarked(w, writes[0]);
      NoMarkIsEverStored(Written(w, writes[0]), writes[1..]);
    }
  }

  /** And marking a replica changes nothing at all. */
  lemma MarkingChangesNothing(w: World, v: string, replica: string, now: string)
    requires AllFit(w.content)
    ensures Written(w, MarkBad(v, replica, now)) == w
  {
    if StoreView.VolumeOf(w.content, v).Some? {
      StoreView.BadMarksAreLost(w.content, v, replica, now);
    }
  }
}
