/** The sidebar's selections: which running containers pass the name filter,
    which of those are selected, and the checkboxes that change the container
    and device selections. */
module Selection {

  import opened Wrappers
  import opened Containers
  import opened Devices
  import Seqs

  /** A container stays selected when nothing was selected before or when
      it was selected before (by identifier). */
  predicate KeepSelected(previous: seq<Container>, c: Container) {
    |previous| == 0 || ContainsContainer(previous, c)
  }

  function Keeper(previous: seq<Container>): Container -> bool {
    (c: Container) => KeepSelected(previous, c)
  }

  function Matcher(matches: string -> bool): Container -> bool {
    (c: Container) => matches(c.name)
  }

  /** With nothing selected before, every filtered container is kept. */
  lemma {:induction false} NothingSelectedKeepsAll(filtered: seq<Container>, previous: seq<Container>)
    ensures |previous| == 0 ==> Seqs.Filter(filtered, Keeper(previous)) == filtered
  {
    if |previous| == 0 {
      Seqs.FilterAll(filtered, Keeper(previous));
    }
  }

  /** The effect run when the running set or the filter changes: the running
      containers whose names match the filter, in order, and the part of
      those that stays selected. With nothing running, both lists empty. */
  function UpdateSelection(running: seq<Container>, matches: string -> bool, previous: seq<Container>): (r: (seq<Container>, seq<Container>))
    ensures |running| == 0 ==> r == ([], [])
    ensures forall c :: multiset(r.0)[c] == if matches(c.name) then multiset(running)[c] else 0
    ensures forall c :: multiset(r.1)[c] == if KeepSelected(previous, c) then multiset(r.0)[c] else 0
    ensures |previous| == 0 ==> r.1 == r.0
  {
    if |running| == 0 then ([], [])
    else
      var filtered := Seqs.Filter(running, Matcher(matches));
      Seqs.FilterMultiset(running, Matcher(matches));
      Seqs.FilterMultiset(filtered, Keeper(previous));
      NothingSelectedKeepsAll(filtered, previous);
      (filtered, Seqs.Filter(filtered, Keeper(previous)))
  }

  /** The effect works piecewise on the running list, so both the filtered
      and the selected containers keep their running order. */
  lemma {:induction false} UpdateSelectionKeepsOrder(a: seq<Container>, b: seq<Container>, matches: string -> bool, previous: seq<Container>)
    ensures UpdateSelection(a + b, matches, previous).0 == UpdateSelection(a, matches, previous).0 + UpdateSelection(b, matches, previous).0
    ensures UpdateSelection(a + b, matches, previous).1 == UpdateSelection(a, matches, previous).1 + UpdateSelection(b, matches, previous).1
  {
    if |a| == 0 {
      assert a + b == b;
    } else if |b| == 0 {
      assert a + b == a;
    } else {
      var fa, fb := Seqs.Filter(a, Matcher(matches)), Seqs.Filter(b, Matcher(matches));
      Seqs.FilterConcat(a, b, Matcher(matches));
      Seqs.FilterConcat(fa, fb, Keeper(previous));
    }
  }

  /** Whether a container stays selected depends on its identifier alone. */
  lemma {:induction false} KeepSelectedById(previous: seq<Container>, a: Container, b: Container)
    requires a.id == b.id
    ensures KeepSelected(previous, a) == KeepSelected(previous, b)
  {
  }

  /** Re-running the effect with an unchanged running set and filter keeps a
      non-empty selection as it is. */
  lemma {:induction false} SelectionStable(running: seq<Container>, matches: string -> bool, previous: seq<Container>)
    requires |UpdateSelection(running, matches, previous).1| > 0
    ensures UpdateSelection(running, matches, UpdateSelection(running, matches, previous).1) == UpdateSelection(running, matches, previous)
  {
    var (filtered, selected) := UpdateSelection(running, matches, previous);
    var keepOld := Keeper(previous);
    var keepNew := Keeper(selected);
    assert selected == Seqs.Filter(filtered, keepOld);
    forall i | 0 <= i < |filtered| ensures keepNew(filtered[i]) == keepOld(filtered[i]) {
      var x := filtered[i];
      if keepOld(x) {
        assert x in selected;
        var j :| 0 <= j < |selected| && selected[j] == x;
        assert ContainsContainer(selected, x);
      }
      if keepNew(x) {
        assert ContainsContainer(selected, x);
        var j :| 0 <= j < |selected| && selected[j].id == x.id;
        assert selected[j] in selected;
        assert keepOld(selected[j]);
        KeepSelectedById(previous, selected[j], x);
      }
    }
    Seqs.FilterCongruent(filtered, keepNew, keepOld);
  }

  /** When nothing selected before passes the filter, the selection empties;
      the next run then finds nothing selected and selects every match. */
  lemma {:induction false} LostSelectionResets(running: seq<Container>, matches: string -> bool, previous: seq<Container>)
    requires |previous| > 0
    requires forall i :: 0 <= i < |running| && matches(running[i].name) ==> !ContainsContainer(previous, running[i])
    ensures UpdateSelection(running, matches, previous).1 == []
    ensures UpdateSelection(running, matches, UpdateSelection(running, matches, previous).1)
      == (UpdateSelection(running, matches, previous).0, UpdateSelection(running, matches, previous).0)
  {
    if |running| > 0 {
      var (filtered, selected) := UpdateSelection(running, matches, previous);
      var keep := Keeper(previous);
      forall i | 0 <= i < |filtered| ensures !keep(filtered[i]) {
        assert filtered[i] in running;
      }
      Seqs.FilterNone(filtered, keep);
    }
  }

  /** Ticking a container's checkbox appends the running container with that
      identifier (failing when none runs); unticking drops every selected
      container with it. */
  function ToggleContainerSelection(selected: seq<Container>, running: seq<Container>, id: string, checked: bool): (r: Result<seq<Container>, Error>)
    ensures r.Failure? <==> checked && forall i :: 0 <= i < |running| ==> running[i].id != id
    ensures r.Failure? ==> r.error == ContainerNotFound(id)
    ensures checked && r.Success? ==>
      && |r.value| == |selected| + 1 && r.value[..|selected|] == selected
      && r.value[|selected|].id == id && r.value[|selected|] in running
    ensures !checked ==> r.Success? && forall c :: c in r.value <==> c in selected && c.id != id
    ensures !checked ==> r.Success? && forall c: Container :: c.id != id ==> multiset(r.value)[c] == multiset(selected)[c]
  {
    if checked then
      var c :- GetContainerById(running, id);
      Success(AddContainer(selected, c))
    else
      Success(RemoveContainerById(selected, id))
  }

  /** Ticking then unticking the same container leaves the selection as if
      it had been unticked directly: the appended entry does not survive. */
  lemma {:induction false} CheckThenUncheck(selected: seq<Container>, running: seq<Container>, id: string)
    requires ToggleContainerSelection(selected, running, id, true).Success?
    ensures ToggleContainerSelection(ToggleContainerSelection(selected, running, id, true).value, running, id, false)
      == Success(RemoveContainerById(selected, id))
  {
    var c := GetContainerById(running, id).value;
    assert c.id == id;
    assert ToggleContainerSelection(selected, running, id, true).value == selected + [c];
    RemoveContainerByIdKeepsOrder(selected, [c], id);
    var gone := RemoveContainerById([c], id);
    assert c !in gone;
    assert gone == [];
    assert RemoveContainerById(selected + [c], id) == RemoveContainerById(selected, id) + gone;
    assert ToggleContainerSelection(selected + [c], running, id, false) == Success(RemoveContainerById(selected + [c], id));
    assert RemoveContainerById(selected, id) + gone == RemoveContainerById(selected, id);
    assert ToggleContainerSelection(selected + [c], running, id, false) == Success(RemoveContainerById(selected, id));
  }

  /** Some selected device has the key. */
  predicate KeySelected(selected: seq<Device>, key: string) {
    exists i :: 0 <= i < |selected| && selected[i].key == key
  }

  /** The selected devices without those with `key`, every other device
      with all its occurrences. */
  function Deselect(selected: seq<Device>, key: string): (r: seq<Device>)
    ensures |r| <= |selected|
    ensures forall d: Device :: multiset(r)[d] == if d.key == key then 0 else multiset(selected)[d]
  {
    var keep := (d: Device) => d.key != key;
    Seqs.FilterMultiset(selected, keep);
    Seqs.Filter(selected, keep)
  }

  /** Deselection works piecewise, so the remaining devices keep their order. */
  lemma {:induction false} DeselectKeepsOrder(a: seq<Device>, b: seq<Device>, key: string)
    ensures Deselect(a + b, key) == Deselect(a, key) + Deselect(b, key)
  {
    var keep := (d: Device) => d.key != key;
    Seqs.FilterConcat(a, b, keep);
  }

  /** Toggling a device: drop every selected device with the key when one is
      selected, otherwise append the first known device with the key (no
      change when the key is unknown). */
  function ToggleDevice(selected: seq<Device>, all: seq<Device>, key: string): (r: seq<Device>)
    ensures KeySelected(selected, key) ==>
      forall d :: d in r <==> d in selected && d.key != key
    ensures KeySelected(selected, key) ==>
      r == Deselect(selected, key) && forall d: Device :: multiset(r)[d] == if d.key == key then 0 else multiset(selected)[d]
    ensures (forall i :: 0 <= i < |selected| ==> selected[i].key != key) ==>
      && (|r| == |selected| || |r| == |selected| + 1)
      && r[..|selected|] == selected
      && (|r| == |selected| + 1 <==> exists i :: 0 <= i < |all| && all[i].key == key)
    ensures |r| == |selected| + 1 ==>
      exists i :: 0 <= i < |all| && all[i] == r[|selected|] && all[i].key == key
        && forall j :: 0 <= j < i ==> all[j].key != key
  {
    if KeySelected(selected, key) then
      Deselect(selected, key)
    else
      match Seqs.FindIndex(all, (d: Device) => d.key == key)
      case Some(i) => selected + [all[i]]
      case None => selected
  }

  /** Toggling a known, unselected device twice restores the selection. */
  lemma {:induction false} ToggleDeviceTwice(selected: seq<Device>, all: seq<Device>, key: string)
    requires forall i :: 0 <= i < |selected| ==> selected[i].key != key
    requires exists i :: 0 <= i < |all| && all[i].key == key
    ensures ToggleDevice(ToggleDevice(selected, all, key), all, key) == selected
  {
    var once := ToggleDevice(selected, all, key);
    var d := once[|selected|];
    assert once == selected + [d];
    assert once[|selected|].key == key;
    var keep := (x: Device) => x.key != key;
    Seqs.FilterConcat(selected, [d], keep);
    Seqs.FilterAll(selected, keep);
    Seqs.FilterNone([d], keep);
  }
}
