/**
 * The tracked children and the two actions that change them: the sensor
 * toggle (start, or reset after a confirmation) and the save of a child's
 * notification setting. The app keeps the children in one array of records
 * and writes the whole collection to its storage entry after every change.
 */
module Sensors {
  import opened Wrappers
  import opened Lifecycle

  datatype Settings = Settings(daysBefore: int)

  datatype Child = Child(name: string, startTime: Option<int>, settings: Settings)

  /** The collection the app starts with: two children, no sensors, one day's notice. */
  function DefaultChildren(): (cs: seq<Child>)
    ensures |cs| == 2
    ensures forall i :: 0 <= i < |cs| ==> !HasStart(cs[i].startTime) && cs[i].settings.daysBefore == 1
  {
    [Child("첫째", None, Settings(1)), Child("둘째", None, Settings(1))]
  }

  /**
   * What a toggle does to one child: an idle child is stamped with `now`; a
   * running one is cleared if `confirmed`, and left as it is otherwise.
   */
  function Toggled(c: Child, confirmed: bool, now: int): (r: Child)
    ensures r.name == c.name && r.settings == c.settings
    ensures !HasStart(c.startTime) ==> r.startTime == Some(now)
    ensures HasStart(c.startTime) && confirmed ==> r.startTime == None
    ensures HasStart(c.startTime) && !confirmed ==> r == c
  {
    if HasStart(c.startTime) then
      if confirmed then c.(startTime := None) else c
    else
      c.(startTime := Some(now))
  }

  /** Starting a sensor makes the child active, unless the clock reads exactly 0. */
  lemma StartMakesActive(c: Child, confirmed: bool, now: int)
    requires !HasStart(c.startTime)
    ensures HasStart(Toggled(c, confirmed, now).startTime) <==> now != 0
    ensures now != 0 ==> Classify(Toggled(c, confirmed, now).startTime, now).level == Active
  {
  }

  /** Start followed by a confirmed reset gives back an idle child with all else kept. */
  lemma StartThenReset(c: Child, now: int, later: int, confirmed: bool)
    requires !HasStart(c.startTime) && now != 0
    ensures Toggled(Toggled(c, confirmed, now), true, later) == c.(startTime := None)
  {
  }

  class App {
    /** The global `children` collection. */
    var children: array<Child>
    /** Which child's settings dialog is open; JavaScript's `null` is None. */
    var activeModalChildIndex: Option<int>
    /** The storage entry 'dexcom_data' holding the saved collection, if any. */
    var stored: Option<seq<Child>>

    /** The app as the page loads it, with whatever the storage already holds. */
    constructor (storage: Option<seq<Child>>)
      ensures fresh(children) && children[..] == DefaultChildren()
      ensures activeModalChildIndex == None && stored == storage
    {
      children := new Child[2](i requires 0 <= i < 2 => DefaultChildren()[i]);
      activeModalChildIndex := None;
      stored := storage;
      new;
      assert children[..] == DefaultChildren();
    }

    /** loadData: a saved collection, when there is one, replaces the children. */
    method LoadData()
      modifies this`children
      ensures old(stored).Some? ==> fresh(children) && children[..] == old(stored).value
      ensures old(stored).None? ==> children == old(children)
    {
      if stored.Some? {
        var saved := stored.value;
        children := new Child[|saved|](i requires 0 <= i < |saved| => saved[i]);
        assert children[..] == saved;
      }
    }

    /** saveData: the whole collection is written to storage. */
    method SaveData()
      modifies this`stored
      ensures stored == Some(children[..])
    {
      stored := Some(children[..]);
    }

    /**
     * handleSensorAction: toggles the sensor of child `index`, then saves.
     * Only that child's startTime may change.
     */
    method Toggle(index: int, confirmed: bool, now: int)
      requires 0 <= index < children.Length
      modifies children, this`stored
      ensures children[..] == old(children[..])[index := Toggled(old(children[index]), confirmed, now)]
      ensures forall j :: 0 <= j < children.Length && j != index ==> children[j] == old(children[j])
      ensures children[index].name == old(children[index].name)
      ensures children[index].settings == old(children[index].settings)
      ensures stored == Some(children[..])
    {
      if HasStart(children[index].startTime) {
        if confirmed {
          children[index] := children[index].(startTime := None);
        }
      } else {
        children[index] := children[index].(startTime := Some(now));
      }
      SaveData();
    }

    /**
     * openNotificationSettings: remembers which child the dialog is for and
     * returns the value the dialog shows.
     */
    method OpenSettings(index: int) returns (shown: int)
      requires 0 <= index < children.Length
      modifies this`activeModalChildIndex
      ensures activeModalChildIndex == Some(index)
      ensures shown == children[index].settings.daysBefore
    {
      activeModalChildIndex := Some(index);
      shown := children[index].settings.daysBefore;
    }

    /**
     * saveSettings: writes `days` (the already-parsed field value) to the
     * open child's daysBefore, then saves. Nothing else changes.
     */
    method SaveSettings(days: int)
      requires activeModalChildIndex.Some?
      requires 0 <= activeModalChildIndex.value < children.Length
      modifies children, this`stored
      ensures var i := activeModalChildIndex.value;
        children[..] == old(children[..])[i := old(children[i]).(settings := Settings(days))]
      ensures var i := activeModalChildIndex.value;
        && children[i].name == old(children[i].name)
        && children[i].startTime == old(children[i].startTime)
        && children[i].settings.daysBefore == days
      ensures stored == Some(children[..])
    {
      var i := activeModalChildIndex.value;
      children[i] := children[i].(settings := children[i].settings.(daysBefore := days));
      SaveData();
    }
  }
}
