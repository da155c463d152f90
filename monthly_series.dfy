/** The monthly series editors: `MonthlyStockManager` (a warehouse product's
    stock per month) and `MonthlyConsumptionManager` (an enterprise product's
    consumption per month). Both hold the same `{ month, volume }` records and
    the same three edits, so one set of members models both. `removeMonth` is
    `Lists.RemoveAt`. `updateMonth` copies the list shallowly and then assigns
    a field of the element object itself, so the entry is a class and the
    caller's list sees the change too. */
module MonthlySeries {
  import opened Wrappers
  import opened JsNumber

  /** The twelve labels the month selector offers, in calendar order. */
  const Months: seq<string> := [
    "Январь 2025", "Февраль 2025", "Март 2025", "Апрель 2025",
    "Май 2025", "Июнь 2025", "Июль 2025", "Август 2025",
    "Сентябрь 2025", "Октябрь 2025", "Ноябрь 2025", "Декабрь 2025"
  ]

  lemma MonthsAreTwelveDistinctLabels()
    ensures |Months| == 12
    ensures forall i, j :: 0 <= i < j < |Months| ==> Months[i] != Months[j]
    ensures Months[0] == "Январь 2025"
  {
  }

  /** One `{ month, volume }` record of a series. */
  class MonthEntry {
    var month: string
    var volume: int

    constructor (month: string, volume: int)
      ensures this.month == month && this.volume == volume
    {
      this.month := month;
      this.volume := volume;
    }
  }

  /** The value of one record at one moment. */
  datatype MonthValue = MonthValue(month: string, volume: int)

  /** What the records of a list hold right now. */
  ghost function Values(data: seq<MonthEntry>): (r: seq<MonthValue>)
    reads set e | e in data
    ensures |r| == |data|
    ensures forall j :: 0 <= j < |data| ==> r[j] == MonthValue(data[j].month, data[j].volume)
  {
    seq(|data|, j reads data requires 0 <= j < |data| => MonthValue(data[j].month, data[j].volume))
  }

  /** No record object occurs twice in the list. */
  ghost predicate DistinctEntries(data: seq<MonthEntry>) {
    forall i, j :: 0 <= i < j < |data| ==> data[i] != data[j]
  }

  /** `addMonth`: the list followed by a new record for the first month label
      with volume 0; the existing records are the same objects, untouched. */
  method AddMonth(data: seq<MonthEntry>) returns (r: seq<MonthEntry>)
    ensures |r| == |data| + 1 && r[..|data|] == data
    ensures fresh(r[|data|])
    ensures Values(r) == Values(data) + [MonthValue(Months[0], 0)]
  {
    var entry := new MonthEntry(Months[0], 0);
    r := data + [entry];
    assert r[..|data|] == data;
  }

  /** The two kinds of edit `updateMonth` accepts: a new month label, or a
      volume given as typed text or as a number. */
  datatype Edit = SetMonth(month: string) | SetVolume(value: FieldValue)

  /** The record `edit` turns `v` into. */
  function Edited(v: MonthValue, edit: Edit): (r: MonthValue)
    ensures edit.SetMonth? ==> r == MonthValue(edit.month, v.volume)
    ensures edit.SetVolume? ==> r == MonthValue(v.month, Coerce(edit.value))
  {
    match edit
    case SetMonth(month) => v.(month := month)
    case SetVolume(value) => v.(volume := Coerce(value))
  }

  /** `updateMonth(index, field, value)`: the same record objects, with the
      one at `index` edited in place. An index with no record makes the
      element lookup `undefined` and the field assignment throws: None. */
  method UpdateMonth(data: seq<MonthEntry>, index: int, edit: Edit) returns (r: Option<seq<MonthEntry>>)
    modifies if 0 <= index < |data| then {data[index]} else {}
    ensures r.Some? <==> 0 <= index < |data|
    ensures r.Some? ==> r.value == data
    ensures r.Some? ==> MonthValue(data[index].month, data[index].volume)
                        == Edited(old(MonthValue(data[index].month, data[index].volume)), edit)
    ensures r.Some? && DistinctEntries(data) ==>
              Values(data) == old(Values(data))[index := Edited(old(Values(data))[index], edit)]
  {
    if !(0 <= index < |data|) {
      return None;
    }
    var updated := data;
    match edit {
      case SetMonth(month) =>
        updated[index].month := month;
      case SetVolume(value) =>
        updated[index].volume := Coerce(value);
    }
    r := Some(updated);
  }
}
