/** render_tweaker.py: Cycles render settings stored per render slot. The window
    manager holds a table from slot key to a snapshot of the listed Cycles
    properties; saving writes the active slot's snapshot (or the main snapshot,
    key "8"), loading writes a snapshot back onto the scene. */
module RenderTweaker {
  import opened Wrappers
  import opened PyStr

  /** A value of a Cycles property. */
  datatype Value = IntValue(i: int) | RealValue(r: real) | BoolValue(b: bool) | EnumValue(e: string)

  /** return_proplist, in the order written: 42 property names. */
  function PropList(): (r: seq<string>)
    ensures |r| == 42
  {
    ["aa_samples", "ao_bounces_render", "ao_samples", "blur_glossy", "caustics_reflective",
     "caustics_refractive", "dicing_rate", "diffuse_bounces", "diffuse_samples", "film_exposure",
     "film_transparent", "filter_type", "filter_width", "glossy_bounces", "glossy_samples",
     "light_sampling_threshold", "max_bounces", "max_subdivisions", "mesh_light_samples", "min_bounces",
     "motion_blur_position", "pixel_filter_type", "progressive", "rolling_shutter_type",
     "rolling_shutter_duration", "sample_clamp_direct", "sample_clamp_indirect",
     "sample_all_lights_indirect", "sample_all_lights_direct", "samples", "sampling_pattern",
     "transmission_bounces", "subsurface_samples", "transmission_samples", "transparent_max_bounces",
     "transparent_min_bounces", "use_square_samples", "use_transparent_shadows", "volume_bounces",
     "volume_max_steps", "volume_samples", "volume_step_size"]
  }

  /** The Cycles settings of a scene: every property has a value. */
  type Settings = string -> Value

  /** The key a slot's snapshot is stored under: "8" for the main settings,
      the active render-slot index otherwise. The index is read from the
      'Render Result' image (get_slot_id); activeSlot is None while there is
      no such image, and then the lookup raises KeyError: there is no key. */
  function SlotKey(slotId: int, activeSlot: Option<nat>): (r: Option<string>)
    ensures slotId == 8 ==> r == Some("8")
    ensures slotId != 8 ==> (r.Some? <==> activeSlot.Some?)
    ensures slotId != 8 && activeSlot.Some? ==> r.value == NatDigits(activeSlot.value)
  {
    if slotId == 8 then Some(IntString(slotId))
    else if activeSlot.None? then None
    else Some(IntString(activeSlot.value))
  }

  /** Saving for two different active slots writes two different keys. */
  lemma SlotKeysDistinct(slotId: int, a: nat, b: nat)
    requires slotId != 8 && a != b
    ensures SlotKey(slotId, Some(a)) != SlotKey(slotId, Some(b))
  {
    if SlotKey(slotId, Some(a)) == SlotKey(slotId, Some(b)) {
      NatDigitsInjective(a, b);
    }
  }

  /** The dictionary the save loop builds from a list of property names:
      each name with its current value, later names written over earlier
      ones. */
  function SnapshotOf(names: seq<string>, cycles: Settings): map<string, Value>
  {
    if names == [] then map[]
    else SnapshotOf(names[..|names| - 1], cycles)[names[|names| - 1] := cycles(names[|names| - 1])]
  }

  /** A snapshot holds exactly the listed names, each with its current
      value. */
  lemma {:induction false} SnapshotOfMeaning(names: seq<string>, cycles: Settings)
    ensures forall p :: p in SnapshotOf(names, cycles) <==> p in names
    ensures forall p :: p in SnapshotOf(names, cycles) ==> SnapshotOf(names, cycles)[p] == cycles(p)
  {
    if names != [] {
      var init := names[..|names| - 1];
      SnapshotOfMeaning(init, cycles);
      assert names == init + [names[|names| - 1]];
    }
  }

  /** The snapshot save_settings_to_storage writes. */
  function Snapshot(cycles: Settings): map<string, Value>
  {
    SnapshotOf(PropList(), cycles)
  }

  /** The table once save_settings_to_storage has made sure it exists, before
      the key is looked up: an absent or empty table becomes an empty one, and
      no entry is added or changed. */
  function Created(table: Option<map<string, map<string, Value>>>): (r: map<string, map<string, Value>>)
    ensures forall k :: k in r <==> table.Some? && k in table.value
    ensures forall k :: k in r ==> r[k] == table.value[k]
  {
    if table.None? || table.value == map[] then map[] else table.value
  }

  /** The table after a save: created when absent, with the key's entry
      replaced by the snapshot. */
  function SavedTable(table: Option<map<string, map<string, Value>>>, key: string, cycles: Settings):
    (r: map<string, map<string, Value>>)
    ensures key in r && r[key] == Snapshot(cycles)
    ensures forall k :: k != key ==> (k in r <==> table.Some? && k in table.value)
    ensures forall k :: k != key && k in r ==> r[k] == table.value[k]
  {
    Created(table)[key := Snapshot(cycles)]
  }

  /** The table after save_settings_to_storage(slot_id): the snapshot stored
      under the key, or, when the key lookup raises, only the created table. */
  function TableAfterSave(table: Option<map<string, map<string, Value>>>, slotId: int, activeSlot: Option<nat>,
                          cycles: Settings): map<string, map<string, Value>>
  {
    match SlotKey(slotId, activeSlot)
    case Some(key) => SavedTable(table, key, cycles)
    case None => Created(table)
  }

  /** The property loop of save_settings_to_storage: each listed property is
      stored under its name with the scene's value. */
  method SnapshotLoop(proplist: seq<string>, cycles: Settings) returns (slotDict: map<string, Value>)
    ensures slotDict == SnapshotOf(proplist, cycles)
  {
    slotDict := map[];
    var k := 0;
    while k < |proplist|
      invariant 0 <= k <= |proplist|
      invariant slotDict == SnapshotOf(proplist[..k], cycles)
    {
      assert proplist[..k + 1][..k] == proplist[..k];
      slotDict := slotDict[proplist[k] := cycles(proplist[k])];
      k := k + 1;
    }
    assert proplist[..k] == proplist;
  }

  /** The scene settings after loading an entry: the entry's properties take
      its values, every other property keeps its own. */
  function Applied(cycles: Settings, entry: map<string, Value>): Settings
  {
    p => if p in entry then entry[p] else cycles(p)
  }

  /** Saving a slot and loading it again, after any change of the scene's
      settings, gives back every listed property as saved and leaves every
      other property as it was. */
  lemma SaveLoadRoundTrip(table: Option<map<string, map<string, Value>>>, key: string, saved: Settings, later: Settings)
    ensures var t := SavedTable(table, key, saved);
      key in t && (forall p :: p in PropList() ==> Applied(later, t[key])(p) == saved(p)) &&
      (forall p :: p !in PropList() ==> Applied(later, t[key])(p) == later(p))
  {
    SnapshotOfMeaning(PropList(), saved);
  }

  /** The window-manager table, the scene's Cycles settings, the record flag
      and the active render slot. */
  class Tweaker {
    var table: Option<map<string, map<string, Value>>>
    var cycles: Settings
    var recordSettings: bool
    var activeSlot: Option<nat>

    constructor(cycles: Settings, activeSlot: Option<nat>)
      ensures table.None? && !recordSettings
      ensures this.cycles == cycles && this.activeSlot == activeSlot
    {
      table := None;
      this.cycles := cycles;
      recordSettings := false;
      this.activeSlot := activeSlot;
    }

    /** save_settings_to_storage(slot_id): the table is created first; then
        the key is looked up, which raises KeyError for a slot other than 8
        while there is no 'Render Result' image, before anything is stored. */
    method SaveSettings(slotId: int) returns (raised: bool)
      modifies this
      ensures raised <==> SlotKey(slotId, activeSlot).None?
      ensures table == Some(TableAfterSave(old(table), slotId, activeSlot, cycles))
      ensures cycles == old(cycles) && recordSettings == old(recordSettings) && activeSlot == old(activeSlot)
    {
      if table.None? || table.value == map[] {
        table := Some(map[]);
      }
      var key := SlotKey(slotId, activeSlot);
      if key.None? {
        return true;
      }
      var slotDict := SnapshotLoop(PropList(), cycles);
      table := Some(table.value[key.value := slotDict]);
      return false;
    }

    /** load_settings_from_storage(context, slot_id): False, with nothing set,
        when the key lookup raises or there is no table or no entry for the
        key (the bare except); otherwise every stored property is set, one at
        a time, and the result is True. */
    method LoadSettings(slotId: int) returns (ok: bool)
      modifies this
      ensures var key := SlotKey(slotId, activeSlot);
        ok <==> key.Some? && table.Some? && key.value in table.value
      ensures ok ==> forall p :: cycles(p) == Applied(old(cycles), table.value[SlotKey(slotId, activeSlot).value])(p)
      ensures !ok ==> cycles == old(cycles)
      ensures table == old(table) && recordSettings == old(recordSettings) && activeSlot == old(activeSlot)
    {
      var key := SlotKey(slotId, activeSlot);
      if key.None? || table.None? || key.value !in table.value {
        return false;
      }
      var propDict := table.value[key.value];
      var todo := propDict.Keys;
      ghost var start := cycles;
      while todo != {}
        invariant todo <= propDict.Keys && table == old(table) && activeSlot == old(activeSlot)
        invariant recordSettings == old(recordSettings)
        invariant forall p :: cycles(p) == if p in propDict && p !in todo then propDict[p] else start(p)
        decreases todo
      {
        var prop :| prop in todo;
        var newValue := propDict[prop];
        var before := cycles;
        cycles := p => if p == prop then newValue else before(p);
        todo := todo - {prop};
      }
      return true;
    }

    /** slot_handler: saves to the active slot only while recording is on. It
        runs after a render, when the 'Render Result' image exists; without
        it the save raises. */
    method SlotHandler() returns (raised: bool)
      modifies this
      ensures cycles == old(cycles) && recordSettings == old(recordSettings) && activeSlot == old(activeSlot)
      ensures raised <==> recordSettings && activeSlot.None?
      ensures recordSettings ==> table == Some(TableAfterSave(old(table), 0, activeSlot, cycles))
      ensures !recordSettings ==> table == old(table)
    {
      raised := false;
      if recordSettings {
        raised := SaveSettings(0);
      }
    }

    /** TWEAKER_OT_enable_slot_recording.execute: turns recording on and saves
        to the active slot, or turns it off and saves nothing. Switching it on
        before any render sets the flag and then raises in the save, with
        the table created and nothing stored. */
    method EnableSlotRecording() returns (raised: bool)
      modifies this
      ensures recordSettings == !old(recordSettings) && cycles == old(cycles) && activeSlot == old(activeSlot)
      ensures raised <==> recordSettings && activeSlot.None?
      ensures recordSettings ==> table == Some(TableAfterSave(old(table), 0, activeSlot, cycles))
      ensures !recordSettings ==> table == old(table)
    {
      raised := false;
      if !recordSettings {
        recordSettings := true;
        raised := SaveSettings(0);
      } else {
        recordSettings := false;
      }
    }

    /** TWEAKER_OT_render_slot_restore.execute and
        TWEAKER_OT_restore_main_rendersettings.execute: load, and report an
        error when the load fails: nothing saved for the key, or, for a
        render slot, no 'Render Result' image to read the slot from. */
    method Restore(main: bool) returns (error: bool)
      modifies this
      ensures var key := SlotKey(if main then 8 else 0, activeSlot);
        (error <==> !(key.Some? && table.Some? && key.value in table.value)) &&
        (!error ==> forall p :: cycles(p) == Applied(old(cycles), table.value[key.value])(p)) &&
        (error ==> cycles == old(cycles))
      ensures table == old(table) && recordSettings == old(recordSettings) && activeSlot == old(activeSlot)
    {
      var ok := LoadSettings(if main then 8 else 0);
      error := !ok;
    }
  }
}
