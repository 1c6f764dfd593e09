/** The fuel-type panel: a list of fuel profiles that the user extends,
    edits and prunes, the draft being typed into the form, the entry being
    edited, and the fuel the optimiser will use. */
module FuelManagement {

  /** `fuel.id`: the five built-in profiles have none; an added profile gets
      the clock reading at the moment it was added. */
  datatype FuelId = NoId | Stamp(stamp: int)

  datatype FuelEntry = FuelEntry(name: string, cost: real, efficiency: real, id: FuelId)

  /** The `newFuel` form fields. */
  datatype Draft = Draft(name: string, cost: real, efficiency: real)

  const EmptyDraft: Draft := Draft("", 0.0, 0.0)

  /** What the delete button passes, `fuel.id || fuel.name`: the stamp when
      there is a (non-zero) one, the name otherwise. */
  datatype DeleteKey = ByStamp(stamp: int) | ByName(name: string)

  /** The parent's `selectedFuel` and the panel's `editingFuel`; `null` is
      `Nothing`. */
  datatype FuelRef = Nothing | Fuel(entry: FuelEntry)

  datatype EfficiencyBand = Green | Yellow | Red

  /** The initial list: five profiles without ids. */
  function DefaultFuels(): (fuels: seq<FuelEntry>)
    ensures |fuels| == 5
    ensures forall k :: 0 <= k < |fuels| ==> fuels[k].id == NoId && 0.0 < fuels[k].efficiency <= 100.0
  {
    [ FuelEntry("Fuel A", 120.0, 70.0, NoId),
      FuelEntry("Fuel B", 150.0, 85.0, NoId),
      FuelEntry("Fuel C", 200.0, 95.0, NoId),
      FuelEntry("Fuel D", 80.0, 50.0, NoId),
      FuelEntry("Fuel E", 300.0, 98.0, NoId) ]
  }

  /** The form check shared by add and update: a name, a positive cost and
      an efficiency in (0, 100]. */
  predicate DraftAccepted(d: Draft) {
    d.name != "" && d.cost > 0.0 && d.efficiency > 0.0 && d.efficiency <= 100.0
  }

  function FromDraft(d: Draft, id: FuelId): FuelEntry {
    FuelEntry(d.name, d.cost, d.efficiency, id)
  }

  /** `fuel.id || fuel.name`: a stamp of 0 is falsy and falls back to the name. */
  function KeyOf(f: FuelEntry): (key: DeleteKey)
    ensures key.ByStamp? <==> f.id.Stamp? && f.id.stamp != 0
    ensures key.ByName? ==> key.name == f.name
  {
    if f.id.Stamp? && f.id.stamp != 0 then ByStamp(f.id.stamp) else ByName(f.name)
  }

  /** `f.id === fuelId`: a name never equals an id, and a missing id equals
      no key. */
  predicate IdIs(f: FuelEntry, key: DeleteKey) {
    key.ByStamp? && f.id == Stamp(key.stamp)
  }

  /** `fuelTypes.filter(f => f.id !== fuelId)`. */
  function Removed(fuels: seq<FuelEntry>, key: DeleteKey): (kept: seq<FuelEntry>)
    ensures |kept| <= |fuels|
  {
    if fuels == [] then []
    else (if IdIs(fuels[0], key) then [] else [fuels[0]]) + Removed(fuels[1..], key)
  }

  /** `fuelTypes.map(f => f.id === id ? { ...draft, id } : f)`. */
  function Replaced(fuels: seq<FuelEntry>, id: FuelId, d: Draft): (r: seq<FuelEntry>)
    ensures |r| == |fuels|
  {
    if fuels == [] then []
    else [if fuels[0].id == id then FromDraft(d, id) else fuels[0]] + Replaced(fuels[1..], id, d)
  }

  /** The filter keeps exactly the entries whose id is not the key, in
      their order. */
  lemma {:induction false} RemovedMembers(fuels: seq<FuelEntry>, key: DeleteKey)
    ensures forall f :: f in Removed(fuels, key) <==> f in fuels && !IdIs(f, key)
  {
    if fuels != [] {
      RemovedMembers(fuels[1..], key);
      assert fuels == [fuels[0]] + fuels[1..];
    }
  }

  /** A name key removes nothing: deleting a built-in profile, whose key is
      its name, leaves the list as it was. */
  lemma {:induction false} RemovedByNameKeepsAll(fuels: seq<FuelEntry>, name: string)
    ensures Removed(fuels, ByName(name)) == fuels
  {
    if fuels != [] {
      RemovedByNameKeepsAll(fuels[1..], name);
      assert fuels == [fuels[0]] + fuels[1..];
    }
  }

  /** The delete button of a built-in profile passes its name, so it
      removes nothing. */
  lemma DeleteBuiltInKeepsAll(fuels: seq<FuelEntry>, f: FuelEntry)
    requires f.id == NoId
    ensures Removed(fuels, KeyOf(f)) == fuels
  {
    RemovedByNameKeepsAll(fuels, f.name);
  }

  /** Entries without an id survive every deletion. */
  lemma {:induction false} RemovedKeepsIdless(fuels: seq<FuelEntry>, key: DeleteKey)
    ensures forall k :: 0 <= k < |fuels| && fuels[k].id == NoId ==> fuels[k] in Removed(fuels, key)
  {
    RemovedMembers(fuels, key);
    forall k | 0 <= k < |fuels| && fuels[k].id == NoId
      ensures fuels[k] in Removed(fuels, key)
    {
      assert fuels[k] in fuels;
    }
  }

  /** Each position is either replaced by the draft under the same id, when
      its id is the edited one, or left alone; ids never change. */
  lemma {:induction false} ReplacedAt(fuels: seq<FuelEntry>, id: FuelId, d: Draft)
    ensures forall k :: 0 <= k < |fuels| ==>
              Replaced(fuels, id, d)[k] == (if fuels[k].id == id then FromDraft(d, id) else fuels[k])
    ensures forall k :: 0 <= k < |fuels| ==> Replaced(fuels, id, d)[k].id == fuels[k].id
  {
    if fuels != [] {
      ReplacedAt(fuels[1..], id, d);
      var r := Replaced(fuels, id, d);
      forall k | 1 <= k < |fuels|
        ensures r[k] == (if fuels[k].id == id then FromDraft(d, id) else fuels[k])
      {
        assert r[k] == Replaced(fuels[1..], id, d)[k - 1];
        assert fuels[1..][k - 1] == fuels[k];
      }
    }
  }

  /** What the panel keeps true: the list is never empty and holds at least
      one built-in (id-less) profile, which no deletion can remove. */
  predicate KeepsBuiltIn(fuels: seq<FuelEntry>) {
    exists k :: 0 <= k < |fuels| && fuels[k].id == NoId
  }

  /** Deletion keeps a built-in profile, so the list never becomes empty. */
  lemma RemovedKeepsBuiltIn(fuels: seq<FuelEntry>, key: DeleteKey)
    requires KeepsBuiltIn(fuels)
    ensures KeepsBuiltIn(Removed(fuels, key))
    ensures |Removed(fuels, key)| >= 1
  {
    var k :| 0 <= k < |fuels| && fuels[k].id == NoId;
    RemovedKeepsIdless(fuels, key);
    var kept := Removed(fuels, key);
    var j :| 0 <= j < |kept| && kept[j] == fuels[k];
  }

  /** Replacing entries keeps their ids, so a built-in profile stays one. */
  lemma ReplacedKeepsBuiltIn(fuels: seq<FuelEntry>, id: FuelId, d: Draft)
    requires KeepsBuiltIn(fuels)
    ensures KeepsBuiltIn(Replaced(fuels, id, d))
  {
    var k :| 0 <= k < |fuels| && fuels[k].id == NoId;
    ReplacedAt(fuels, id, d);
    assert Replaced(fuels, id, d)[k].id == NoId;
  }

  /** The colour band of an efficiency: the thresholds 90 and 70. */
  function Band(efficiency: real): (b: EfficiencyBand)
    ensures b == Green <==> efficiency >= 90.0
    ensures b == Yellow <==> 70.0 <= efficiency < 90.0
    ensures b == Red <==> efficiency < 70.0
  {
    if efficiency >= 90.0 then Green
    else if efficiency >= 70.0 then Yellow
    else Red
  }

  /** `getEfficiencyColor`. */
  function EfficiencyColor(efficiency: real): (c: string)
    ensures c == "text-green-400" <==> efficiency >= 90.0
    ensures c == "text-yellow-400" <==> 70.0 <= efficiency < 90.0
    ensures c == "text-red-400" <==> efficiency < 70.0
  {
    match Band(efficiency)
    case Green => "text-green-400"
    case Yellow => "text-yellow-400"
    case Red => "text-red-400"
  }

  /** `getEfficiencyBg`: the same bands as the text colour. */
  function EfficiencyBg(efficiency: real): (c: string)
    ensures c == "bg-green-500/20 border-green-500/30" <==> efficiency >= 90.0
    ensures c == "bg-yellow-500/20 border-yellow-500/30" <==> 70.0 <= efficiency < 90.0
    ensures c == "bg-red-500/20 border-red-500/30" <==> efficiency < 70.0
  {
    match Band(efficiency)
    case Green => "bg-green-500/20 border-green-500/30"
    case Yellow => "bg-yellow-500/20 border-yellow-500/30"
    case Red => "bg-red-500/20 border-red-500/30"
  }

  /** The panel's state: `fuelTypes`, the parent's `selectedFuel` (changed
      through `onFuelChange`), the form draft `newFuel`, `editingFuel` and
      the `isEditing` switch. */
  class FuelManager {
    var fuelTypes: seq<FuelEntry>
    var selectedFuel: FuelRef
    var newFuel: Draft
    var editingFuel: FuelRef
    var isEditing: bool

    predicate Valid()
      reads this
    {
      |fuelTypes| >= 1 && KeepsBuiltIn(fuelTypes)
    }

    constructor (selected: FuelRef)
      ensures fuelTypes == DefaultFuels() && selectedFuel == selected
      ensures newFuel == EmptyDraft && editingFuel == Nothing && !isEditing
      ensures Valid()
    {
      fuelTypes := DefaultFuels();
      selectedFuel := selected;
      newFuel := EmptyDraft;
      editingFuel := Nothing;
      isEditing := false;
      new;
      assert fuelTypes[0].id == NoId;
    }

    /** `handleFuelSelect`. */
    method SelectFuel(fuel: FuelEntry)
      modifies this
      ensures selectedFuel == Fuel(fuel)
      ensures fuelTypes == old(fuelTypes) && newFuel == old(newFuel)
      ensures editingFuel == old(editingFuel) && isEditing == old(isEditing)
    {
      selectedFuel := Fuel(fuel);
    }

    /** `handleAddFuel`: an accepted draft is appended under the clock
        reading `now` and the form is cleared; otherwise nothing changes. */
    method AddFuel(now: int)
      requires Valid()
      modifies this
      ensures Valid()
      ensures DraftAccepted(old(newFuel)) ==>
                fuelTypes == old(fuelTypes) + [FromDraft(old(newFuel), Stamp(now))] && newFuel == EmptyDraft
      ensures !DraftAccepted(old(newFuel)) ==> fuelTypes == old(fuelTypes) && newFuel == old(newFuel)
      ensures selectedFuel == old(selectedFuel) && editingFuel == old(editingFuel) && isEditing == old(isEditing)
    {
      if DraftAccepted(newFuel) {
        var k :| 0 <= k < |fuelTypes| && fuelTypes[k].id == NoId;
        fuelTypes := fuelTypes + [FromDraft(newFuel, Stamp(now))];
        assert fuelTypes[k].id == NoId;
        newFuel := EmptyDraft;
      }
    }

    /** `handleEditFuel`: load the entry into the form. */
    method EditFuel(fuel: FuelEntry)
      modifies this
      ensures editingFuel == Fuel(fuel) && isEditing
      ensures newFuel == Draft(fuel.name, fuel.cost, fuel.efficiency)
      ensures fuelTypes == old(fuelTypes) && selectedFuel == old(selectedFuel)
    {
      editingFuel := Fuel(fuel);
      newFuel := Draft(fuel.name, fuel.cost, fuel.efficiency);
      isEditing := true;
    }

    /** `handleUpdateFuel`, which the form only offers while an entry is
        being edited: an accepted draft replaces every entry carrying the
        edited entry's id (every built-in one when that id is missing), and
        the form is closed; otherwise nothing changes. */
    method UpdateFuel()
      requires Valid() && editingFuel.Fuel?
      modifies this
      ensures Valid()
      ensures DraftAccepted(old(newFuel)) ==>
                && fuelTypes == Replaced(old(fuelTypes), old(editingFuel).entry.id, old(newFuel))
                && newFuel == EmptyDraft && editingFuel == Nothing && !isEditing
      ensures !DraftAccepted(old(newFuel)) ==>
                && fuelTypes == old(fuelTypes) && newFuel == old(newFuel)
                && editingFuel == old(editingFuel) && isEditing == old(isEditing)
      ensures selectedFuel == old(selectedFuel)
    {
      if DraftAccepted(newFuel) {
        ReplacedKeepsBuiltIn(fuelTypes, editingFuel.entry.id, newFuel);
        fuelTypes := Replaced(fuelTypes, editingFuel.entry.id, newFuel);
        newFuel := EmptyDraft;
        editingFuel := Nothing;
        isEditing := false;
      }
    }

    /** The Cancel button of the edit form. */
    method CancelEdit()
      modifies this
      ensures editingFuel == Nothing && newFuel == EmptyDraft
      ensures fuelTypes == old(fuelTypes) && selectedFuel == old(selectedFuel) && isEditing == old(isEditing)
    {
      editingFuel := Nothing;
      newFuel := EmptyDraft;
    }

    /** The form's confirm button: update while editing, add otherwise. */
    method Submit(now: int)
      requires Valid()
      modifies this
      ensures Valid()
      ensures old(editingFuel).Nothing? && DraftAccepted(old(newFuel)) ==>
                && fuelTypes == old(fuelTypes) + [FromDraft(old(newFuel), Stamp(now))]
                && newFuel == EmptyDraft && editingFuel == Nothing && isEditing == old(isEditing)
      ensures old(editingFuel).Fuel? && DraftAccepted(old(newFuel)) ==>
                && fuelTypes == Replaced(old(fuelTypes), old(editingFuel).entry.id, old(newFuel))
                && newFuel == EmptyDraft && editingFuel == Nothing && !isEditing
      ensures !DraftAccepted(old(newFuel)) ==>
                && fuelTypes == old(fuelTypes) && newFuel == old(newFuel)
                && editingFuel == old(editingFuel) && isEditing == old(isEditing)
      ensures selectedFuel == old(selectedFuel)
    {
      if editingFuel.Fuel? {
        UpdateFuel();
      } else {
        AddFuel(now);
      }
    }

    /** `handleDeleteFuel(key)`: with more than one entry, drop those whose id
        is the key, and if the selected fuel's id is the key, select the
        first entry of the list as it was before the deletion; with one
        entry, nothing changes. */
    method DeleteFuel(key: DeleteKey)
      requires Valid()
      modifies this
      ensures Valid()
      ensures |old(fuelTypes)| > 1 ==> fuelTypes == Removed(old(fuelTypes), key)
      ensures |old(fuelTypes)| > 1 && old(selectedFuel).Fuel? && IdIs(old(selectedFuel).entry, key) ==>
                selectedFuel == Fuel(old(fuelTypes)[0])
      ensures |old(fuelTypes)| <= 1 || !(old(selectedFuel).Fuel? && IdIs(old(selectedFuel).entry, key)) ==>
                selectedFuel == old(selectedFuel)
      ensures |old(fuelTypes)| <= 1 ==> fuelTypes == old(fuelTypes)
      ensures newFuel == old(newFuel) && editingFuel == old(editingFuel) && isEditing == old(isEditing)
    {
      if |fuelTypes| > 1 {
        var first := fuelTypes[0];
        RemovedKeepsBuiltIn(fuelTypes, key);
        fuelTypes := Removed(fuelTypes, key);
        if selectedFuel.Fuel? && IdIs(selectedFuel.entry, key) {
          selectedFuel := Fuel(first);
        }
      }
    }
  }
}
