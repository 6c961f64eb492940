/** The playlist overlay (src/components/Controls/Playlist.tsx): which item
    is marked active and which thumbnails and duration labels are shown. */
module PlaylistPanel {
  import opened Base
  import Clock

  /** A playlist entry. Optional fields are None when absent; `kind` is the
      declared stream type. */
  datatype Item = Item(id: string, title: string, url: string, kind: Option<string>,
                       thumbnail: Option<string>, duration: Option<real>)

  /** One drawn entry. `stray` is text React prints in place of the
      duration label when the guard `item.duration && ...` yields the
      number 0 itself: a present zero duration shows as "0". */
  datatype Row = Row(title: string, active: bool, thumbnail: Option<string>, durationLabel: Option<string>,
                     stray: Option<string>)

  /** A present, non-empty string is truthy. */
  predicate ShowsThumbnail(item: Item) {
    item.thumbnail.Some? && item.thumbnail.value != ""
  }

  /** A present, non-zero number is truthy: a zero duration gets no label. */
  predicate ShowsDuration(item: Item) {
    item.duration.Some? && item.duration.value != 0.0
  }

  function DrawItem(item: Item, index: int, currentIndex: int): Row {
    Row(item.title, index == currentIndex,
        if ShowsThumbnail(item) then item.thumbnail else None,
        if ShowsDuration(item) then Some(Clock.FormatTime(item.duration.value)) else None,
        if item.duration == Some(0.0) then Some("0") else None)
  }

  /** The overlay, or None when it is hidden. */
  function Render(items: seq<Item>, currentIndex: int, visible: bool): (v: Option<seq<Row>>)
    ensures v.None? <==> !visible
    ensures v.Some? ==> |v.value| == |items|
    ensures v.Some? ==> forall k :: 0 <= k < |items| ==>
      && v.value[k].title == items[k].title
      && (v.value[k].active <==> k == currentIndex)
      && (v.value[k].thumbnail.Some? <==> items[k].thumbnail.Some? && items[k].thumbnail.value != "")
      && (v.value[k].thumbnail.Some? ==> v.value[k].thumbnail == items[k].thumbnail)
      && (v.value[k].durationLabel.Some? <==> items[k].duration.Some? && items[k].duration.value != 0.0)
      && (v.value[k].stray.Some? <==> items[k].duration == Some(0.0))
      && (v.value[k].stray.Some? ==> v.value[k].stray.value == "0")
      && !(v.value[k].durationLabel.Some? && v.value[k].stray.Some?)
  {
    if !visible then None
    else Some(seq(|items|, k requires 0 <= k < |items| => DrawItem(items[k], k, currentIndex)))
  }

  /** At most one row is active, and one is exactly when the current index
      lies inside the list. */
  lemma OneActive(items: seq<Item>, currentIndex: int)
    ensures var v := Render(items, currentIndex, true);
      && v.Some?
      && (forall k, l :: 0 <= k < l < |items| ==> !(v.value[k].active && v.value[l].active))
      && ((exists k :: 0 <= k < |items| && v.value[k].active) <==> 0 <= currentIndex < |items|)
  {
    var v := Render(items, currentIndex, true);
    if 0 <= currentIndex < |items| {
      assert v.value[currentIndex].active;
    }
  }

  /** A duration label, when shown, is the clock text of the whole seconds. */
  lemma DurationLabelReadsBack(items: seq<Item>, currentIndex: int, k: nat)
    requires k < |items| && ShowsDuration(items[k]) && items[k].duration.value >= 0.0
    ensures var v := Render(items, currentIndex, true);
      v.Some? && v.value[k].durationLabel.Some?
      && Clock.ParseClock(v.value[k].durationLabel.value) == Some(items[k].duration.value.Floor)
  {
    Clock.FormatParseRoundTrip(items[k].duration.value);
  }
}
