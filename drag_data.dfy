/**
 * The browser's drag data store as the item and list views use it
 * (`event.dataTransfer`): a list of (format, data) entries and the allowed
 * effect. `setData` replaces any entry of the same format by a new last
 * entry; `getData` gives the empty string for a format that is absent;
 * `types` lists the formats in entry order.
 */
module DragDrop {
  datatype DragItem = DragItem(format: string, data: string)

  /** The formats of the entries, in order. */
  function Formats(items: seq<DragItem>): (r: seq<string>)
    ensures |r| == |items|
    ensures forall k | 0 <= k < |items| :: r[k] == items[k].format
  {
    if items == [] then [] else [items[0].format] + Formats(items[1..])
  }

  /** The data of the first entry with `format`, or "" when there is none. */
  function DataOf(items: seq<DragItem>, format: string): (r: string)
    ensures (forall k | 0 <= k < |items| :: items[k].format != format) ==> r == ""
    ensures forall k | 0 <= k < |items| && items[k].format == format
                       && (forall j | 0 <= j < k :: items[j].format != format) :: r == items[k].data
  {
    if items == [] then ""
    else if items[0].format == format then items[0].data
    else
      assert forall k | 1 <= k < |items| :: items[1..][k - 1] == items[k];
      DataOf(items[1..], format)
  }

  /** The entries whose format is not `format`, in order. */
  function Without(items: seq<DragItem>, format: string): (r: seq<DragItem>)
    ensures forall k | 0 <= k < |r| :: r[k].format != format
    ensures forall f | f != format :: DataOf(r, f) == DataOf(items, f)
  {
    if items == [] then []
    else if items[0].format == format then Without(items[1..], format)
    else [items[0]] + Without(items[1..], format)
  }

  /** Appending an entry leaves the data of formats already present as it was. */
  lemma {:induction false} DataOfAppend(items: seq<DragItem>, extra: DragItem, f: string)
    requires exists k | 0 <= k < |items| :: items[k].format == f
    ensures DataOf(items + [extra], f) == DataOf(items, f)
  {
    if items[0].format != f {
      assert (items + [extra])[1..] == items[1..] + [extra];
      var k :| 0 <= k < |items| && items[k].format == f;
      assert items[1..][k - 1].format == f;
      DataOfAppend(items[1..], extra, f);
    }
  }

  /** The last entry is found when no earlier entry has its format. */
  lemma {:induction false} DataOfLast(items: seq<DragItem>, extra: DragItem)
    requires forall k | 0 <= k < |items| :: items[k].format != extra.format
    ensures DataOf(items + [extra], extra.format) == extra.data
  {
    if items != [] {
      assert (items + [extra])[1..] == items[1..] + [extra];
      DataOfLast(items[1..], extra);
    }
  }

  class DataTransfer {
    var items: seq<DragItem>
    var effectAllowed: string

    constructor (items: seq<DragItem>, effectAllowed: string)
      ensures this.items == items && this.effectAllowed == effectAllowed
    {
      this.items := items;
      this.effectAllowed := effectAllowed;
    }

    /** `dataTransfer.types` */
    function Types(): seq<string>
      reads this
    {
      Formats(items)
    }

    /** `dataTransfer.getData(format)` */
    function GetData(format: string): string
      reads this
    {
      DataOf(items, format)
    }

    /**
     * `dataTransfer.setData(format, data)`: afterwards `format` reads back as
     * `data`, is the last of the types, and every other format reads as before.
     */
    method SetData(format: string, data: string)
      modifies this`items
      ensures items == Without(old(items), format) + [DragItem(format, data)]
      ensures GetData(format) == data
      ensures Types()[|Types()| - 1] == format
      ensures forall f | f != format :: GetData(f) == old(GetData(f))
    {
      var kept := Without(items, format);
      items := kept + [DragItem(format, data)];
      DataOfLast(kept, DragItem(format, data));
      forall f | f != format
        ensures DataOf(items, f) == old(DataOf(items, f))
      {
        if exists k | 0 <= k < |kept| :: kept[k].format == f {
          DataOfAppend(kept, DragItem(format, data), f);
        } else {
          assert forall k | 0 <= k < |items| :: items[k].format != f;
        }
      }
    }
  }
}
