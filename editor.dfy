/**
 * The card editor: placeholder entities on the document, the floating
 * add/remove button and its freeze flag, and the extract of placeholder
 * ranges handed to the store on every change.
 */
module Editor {
  import opened Options
  import opened DraftModel
  import Card

  const PlaceholderKind: string := "PLACEHOLDER"

  /** Half the button's height: the button is centred on a corner of the rectangle it follows. */
  const HalfButton: int := 12

  datatype Coords = Coords(top: int, left: int)

  /** A bounding rectangle as the browser reports it (only the fields the editor reads). */
  datatype Rect = Rect(top: int, left: int, width: int)

  /**
   * What the browser tells the editor at a change: the visible selection's
   * rectangle, the rectangle of the DOM node hosting the caret, and the page's
   * vertical scroll.  `None` is "not available".
   */
  datatype Geometry = Geometry(selectionRect: Option<Rect>, caretNodeRect: Option<Rect>, scrollY: int)

  /** The fields `showButtons` sets; `coords` is `None` when it leaves `buttonCoords` alone. */
  datatype ButtonUpdate = ButtonUpdate(showAdd: bool, showRemove: bool, coords: Option<Coords>)

  /** One block of the extract: its text and its placeholder ranges (`{start, stop}`). */
  datatype BlockData = BlockData(text: string, placeholders: seq<Range>)

  // ---------------------------------------------------------------------
  // Snapshot-to-snapshot helpers
  // ---------------------------------------------------------------------

  /**
   * `addEntity`: registers a new entity under the next key and tags the
   * current selection with it; the selection stays.
   */
  function AddEntity(es: EditorState, kind: string, mutability: Mutability, data: map<string, string>): (r: EditorState)
    ensures r.selection == es.selection
    ensures r.content.lastKey == es.content.lastKey + 1
    ensures r.content.entityMap == es.content.entityMap[r.content.lastKey := Entity(kind, mutability, data)]
    ensures Retagged(es.content, r.content, es.selection, Some(r.content.lastKey))
  {
    var key := es.content.lastKey + 1;
    var registered := es.content.(entityMap := es.content.entityMap[key := Entity(kind, mutability, data)], lastKey := key);
    EditorState(ApplyEntity(registered, es.selection, Some(key)), es.selection)
  }

  /**
   * On a valid state the new key is registered nowhere and tags no character
   * before the call, and the state stays valid.
   */
  lemma AddEntityFresh(es: EditorState, kind: string, mutability: Mutability, data: map<string, string>)
    requires ValidEditorState(es)
    ensures var r := AddEntity(es, kind, mutability, data);
      && r.content.lastKey !in es.content.entityMap
      && (forall i, m :: 0 <= i < |es.content.blocks| && 0 <= m < |es.content.blocks[i].entities| ==>
            es.content.blocks[i].entities[m] != Some(r.content.lastKey))
      && ValidEditorState(r)
  {
    var r := AddEntity(es, kind, mutability, data);
    var key := r.content.lastKey;
    var registered := es.content.(entityMap := r.content.entityMap, lastKey := key);
    assert ValidContent(registered);
    RetaggedKeepsContent(registered, r.content, es.selection, Some(key));
    RetaggedKeepsSelections(registered, r.content, es.selection, Some(key), es.selection);
  }

  /**
   * `removeEntities`: clears every offset of `selection` (or, when it is
   * absent, of the current selection); the cleared selection becomes current.
   */
  function RemoveEntities(es: EditorState, selection: Option<Selection>): (r: EditorState)
    ensures r.selection == selection.GetOr(es.selection)
    ensures r.content.entityMap == es.content.entityMap && r.content.lastKey == es.content.lastKey
    ensures Retagged(es.content, r.content, r.selection, None)
  {
    var s := selection.GetOr(es.selection);
    EditorState(ApplyEntity(es.content, s, None), s)
  }

  /** Clearing the same selection twice is clearing it once. */
  lemma RemoveEntitiesIdempotent(es: EditorState, selection: Option<Selection>)
    ensures RemoveEntities(RemoveEntities(es, selection), selection) == RemoveEntities(es, selection)
  {
    var r1 := RemoveEntities(es, selection);
    var r2 := RemoveEntities(r1, selection);
    RetaggedTwice(es.content, r1.content, r2.content, r1.selection, None);
  }

  lemma RemoveEntitiesKeepsValid(es: EditorState, selection: Option<Selection>)
    requires ValidContent(es.content) && ValidSelection(es.content, selection.GetOr(es.selection))
    ensures ValidEditorState(RemoveEntities(es, selection))
  {
    var r := RemoveEntities(es, selection);
    RetaggedKeepsContent(es.content, r.content, r.selection, None);
    RetaggedKeepsSelections(es.content, r.content, r.selection, None, r.selection);
  }

  /**
   * Clearing a range inside one block of a valid state keeps it valid and
   * clears exactly that range of that block.
   */
  lemma ClearRangeInBlock(es: EditorState, bi: nat, start: nat, end: nat, hasFocus: bool)
    requires ValidEditorState(es)
    requires bi < |es.content.blocks| && start <= end <= |es.content.blocks[bi].text|
    ensures var key := es.content.blocks[bi].key;
            var r := RemoveEntities(es, Some(Selection(key, start, key, end, false, hasFocus)));
            && ValidEditorState(r)
            && (forall i, m :: 0 <= i < |es.content.blocks| && 0 <= m < |es.content.blocks[i].entities| ==>
                  r.content.blocks[i].entities[m] ==
                    if i == bi && start <= m < end then None else es.content.blocks[i].entities[m])
  {
    var key := es.content.blocks[bi].key;
    var sel := Selection(key, start, key, end, false, hasFocus);
    var keys := KeysOf(es.content.blocks);
    BlockIndexOfOwnKey(es.content, bi);
    assert StartKey(sel) == key && EndKey(sel) == key;
    RemoveEntitiesKeepsValid(es, Some(sel));
    var r := RemoveEntities(es, Some(sel));
    forall i, m | 0 <= i < |es.content.blocks| && 0 <= m < |es.content.blocks[i].entities|
      ensures r.content.blocks[i].entities[m] ==
                if i == bi && start <= m < end then None else es.content.blocks[i].entities[m]
    {
      assert Covers(keys, sel, i, m) <==> i == bi && start <= m < end;
    }
  }

  /**
   * A placeholder added over the middle of an older one leaves the older
   * one's outer characters tagged, so the older entity now has two runs.  With
   * the caret on the second run, `range[0]` in `removePlaceholder` is the first
   * run, which does not contain the caret.
   */
  lemma OverlapSplitsOlderPlaceholder()
    ensures var older: Tags := [None, None, Some(1), Some(1), Some(1), Some(1), Some(1), Some(1)];
            var es := EditorState(
              Content([Block("b", Unstyled, "abcdefgh", older)], map[1 := Entity(PlaceholderKind, Mutable, map[])], 1),
              Selection("b", 4, "b", 6, false, true));
            var tags := AddEntity(RemoveEntities(es, None), PlaceholderKind, Mutable, map[]).content.blocks[0].entities;
            && tags == [None, None, Some(1), Some(1), Some(2), Some(2), Some(1), Some(1)]
            && RangesForEntity(tags, 1) == [Range(2, 4), Range(6, 8)]
            && !(RangesForEntity(tags, 1)[0].start <= 7 < RangesForEntity(tags, 1)[0].end)
  {
    var older: Tags := [None, None, Some(1), Some(1), Some(1), Some(1), Some(1), Some(1)];
    var es := EditorState(
      Content([Block("b", Unstyled, "abcdefgh", older)], map[1 := Entity(PlaceholderKind, Mutable, map[])], 1),
      Selection("b", 4, "b", 6, false, true));
    var after := AddEntity(RemoveEntities(es, None), PlaceholderKind, Mutable, map[]);
    RetaggedThen(es.content, RemoveEntities(es, None).content, after.content, es.selection, None, Some(2));
    assert KeysOf(es.content.blocks) == ["b"];
    assert IndexOfKey(["b"], "b") == Some(0);
    var tags := after.content.blocks[0].entities;
    var expected: Tags := [None, None, Some(1), Some(1), Some(2), Some(2), Some(1), Some(1)];
    forall m | 0 <= m < 8
      ensures tags[m] == expected[m]
    {
      assert Covers(KeysOf(es.content.blocks), es.selection, 0, m) <==> 4 <= m < 6;
    }
    assert tags == expected;
    var keep := IsTagged(1);
    assert RunEnd(tags, 7) == 8;
    assert RunEnd(tags, 6) == 8;
    assert RunEnd(tags, 5) == 6;
    assert RunEnd(tags, 4) == 6;
    assert RunEnd(tags, 3) == 4;
    assert RunEnd(tags, 2) == 4;
    assert RunEnd(tags, 1) == 2;
    assert RunEnd(tags, 0) == 2;
    assert RangesFrom(tags, keep, 8) == [];
    assert RangesFrom(tags, keep, 6) == [Range(6, 8)];
    assert RangesFrom(tags, keep, 4) == [Range(6, 8)];
    assert RangesFrom(tags, keep, 2) == [Range(2, 4), Range(6, 8)];
    assert RangesFrom(tags, keep, 0) == [Range(2, 4), Range(6, 8)];
  }

  /**
   * A placeholder can span blocks: `addPlaceholder` tags whatever the
   * selection covers, and while the button is frozen the add button stays
   * offered after the selection is extended into a later block.  Then the
   * new key sits on the start block from the start offset and on the end
   * block before the end offset.
   */
  lemma PlaceholderSpansBlocks(es: EditorState)
    requires ValidEditorState(es)
    requires StartKey(es.selection) != EndKey(es.selection)
    requires StartOffset(es.selection) < |es.content.blocks[BlockIndex(es.content, StartKey(es.selection)).value].text|
    requires 0 < EndOffset(es.selection)
    ensures var si := BlockIndex(es.content, StartKey(es.selection)).value;
            var ei := BlockIndex(es.content, EndKey(es.selection)).value;
            var after := AddEntity(RemoveEntities(es, None), PlaceholderKind, Mutable, map[]);
            && si < ei
            && after.content.blocks[si].entities[StartOffset(es.selection)] == Some(after.content.lastKey)
            && after.content.blocks[ei].entities[EndOffset(es.selection) - 1] == Some(after.content.lastKey)
  {
    var s := es.selection;
    var keys := KeysOf(es.content.blocks);
    var si := BlockIndex(es.content, StartKey(s)).value;
    var ei := BlockIndex(es.content, EndKey(s)).value;
    assert keys[si] == StartKey(s) && keys[ei] == EndKey(s);
    assert Covers(keys, s, si, StartOffset(s));
    assert Covers(keys, s, ei, EndOffset(s) - 1);
  }

  // ---------------------------------------------------------------------
  // Placeholder ranges: decoration and extraction
  // ---------------------------------------------------------------------

  /** The filter both `placeholderStrategy` and `extractPlaceholders` pass: the character carries an entity. */
  function IsEntity(e: Option<EntityKey>): bool { e.Some? }

  /**
   * The ranges `placeholderStrategy` hands to the decorator: the maximal runs
   * of one entity, which together cover exactly the tagged characters.
   */
  function PlaceholderStrategy(b: Block): (decorated: seq<Range>)
    ensures forall n :: 0 <= n < |decorated| ==> IsKeptRun(b.entities, IsEntity, decorated[n])
    ensures forall a, c :: 0 <= a < c < |decorated| ==> decorated[a].end <= decorated[c].start
    ensures forall m :: 0 <= m < |b.entities| ==> (Covered(decorated, m) <==> b.entities[m].Some?)
  {
    RangesFromCover(b.entities, IsEntity, 0);
    FindEntityRanges(b.entities, IsEntity)
  }

  /** The extract of a whole document: per block, in order, its text and its placeholder ranges. */
  function Extract(c: Content): seq<BlockData> {
    seq(|c.blocks|, i requires 0 <= i < |c.blocks| =>
      BlockData(c.blocks[i].text, FindEntityRanges(c.blocks[i].entities, IsEntity)))
  }

  /**
   * One entry per block, text verbatim; each block's ranges are non-empty
   * runs inside the text, in increasing order and disjoint, each a maximal run
   * of one entity, and they cover exactly the characters that carry an entity.
   */
  lemma ExtractShape(c: Content)
    requires ValidContent(c)
    ensures |Extract(c)| == |c.blocks|
    ensures forall i :: 0 <= i < |c.blocks| ==> Extract(c)[i].text == c.blocks[i].text
    ensures forall i, n :: 0 <= i < |c.blocks| && 0 <= n < |Extract(c)[i].placeholders| ==>
              Extract(c)[i].placeholders[n].end <= |c.blocks[i].text| &&
              IsKeptRun(c.blocks[i].entities, IsEntity, Extract(c)[i].placeholders[n])
    ensures forall i, a, b :: 0 <= i < |c.blocks| && 0 <= a < b < |Extract(c)[i].placeholders| ==>
              Extract(c)[i].placeholders[a].end <= Extract(c)[i].placeholders[b].start
    ensures forall i, m :: 0 <= i < |c.blocks| && 0 <= m < |c.blocks[i].entities| ==>
              (Covered(Extract(c)[i].placeholders, m) <==> c.blocks[i].entities[m].Some?)
  {
    forall i | 0 <= i < |c.blocks|
      ensures Extract(c)[i].placeholders == PlaceholderStrategy(c.blocks[i])
    {
    }
  }

  /**
   * The callback of `findEntityRanges` inside `extractPlaceholders` for one
   * block: scans the tags left to right, keeping the start of the current run,
   * and pushes `{start, stop}` each time a run of an entity ends.  The ranges
   * pushed are `RangesFrom(b.entities, IsEntity, 0)`, the definition of
   * `FindEntityRanges(b.entities, IsEntity)`.
   */
  method ExtractBlock(b: Block) returns (blockData: BlockData)
    ensures blockData == BlockData(b.text, RangesFrom(b.entities, IsEntity, 0))
  {
    blockData := BlockData(b.text, []);
    var s := b.entities;
    if |s| == 0 {
      return;
    }
    var cursor := 0;
    var k := 1;
    while k < |s|
      invariant 0 <= cursor < k <= |s|
      invariant forall m :: cursor <= m < k ==> s[m] == s[cursor]
      invariant blockData.text == b.text
      invariant blockData.placeholders + RangesFrom(s, IsEntity, cursor) == RangesFrom(s, IsEntity, 0)
    {
      if s[k] != s[k - 1] {
        assert RunEnd(s, cursor) == k;
        if IsEntity(s[k - 1]) {
          blockData := blockData.(placeholders := blockData.placeholders + [Range(cursor, k)]);
        }
        cursor := k;
      }
      k := k + 1;
    }
    assert RunEnd(s, cursor) == |s|;
    if IsEntity(s[|s| - 1]) {
      blockData := blockData.(placeholders := blockData.placeholders + [Range(cursor, |s|)]);
    }
  }

  /** `extractPlaceholders`: maps every block, in document order, to its extract. */
  method ExtractPlaceholders(c: Content) returns (data: seq<BlockData>)
    ensures data == Extract(c)
  {
    data := [];
    var i := 0;
    while i < |c.blocks|
      invariant 0 <= i <= |c.blocks|
      invariant data == Extract(c)[..i]
    {
      var blockData := ExtractBlock(c.blocks[i]);
      data := data + [blockData];
      i := i + 1;
    }
  }

  /** One pushed range, the object `{ start, stop }`. */
  function RangeValue(r: Range): (v: Card.Value)
    ensures v.Obj? && v.fields.Keys == {"start", "stop"}
    ensures v.fields["start"] == Card.Num(r.start) && v.fields["stop"] == Card.Num(r.end)
  {
    Card.Obj(map["start" := Card.Num(r.start), "stop" := Card.Num(r.end)])
  }

  /** One block's extract as the object `{ text, placeholders }`, the ranges in order. */
  function BlockDataValue(d: BlockData): (v: Card.Value)
    ensures v.Obj? && v.fields.Keys == {"text", "placeholders"}
    ensures v.fields["text"] == Card.Str(d.text)
    ensures v.fields["placeholders"].Arr? && |v.fields["placeholders"].items| == |d.placeholders|
    ensures forall n :: 0 <= n < |d.placeholders| ==> v.fields["placeholders"].items[n] == RangeValue(d.placeholders[n])
  {
    Card.Obj(map[
      "text" := Card.Str(d.text),
      "placeholders" := Card.Arr(seq(|d.placeholders|, n requires 0 <= n < |d.placeholders| => RangeValue(d.placeholders[n])))])
  }

  /** The object handed to the store: `{ placeholders, backContentRaw }`, one entry per block in order. */
  function ChangePayload(data: seq<BlockData>, raw: Card.Value): (v: Card.Value)
    ensures v.Obj? && v.fields.Keys == {"placeholders", "backContentRaw"}
    ensures v.fields["backContentRaw"] == raw
    ensures v.fields["placeholders"].Arr? && |v.fields["placeholders"].items| == |data|
    ensures forall i :: 0 <= i < |data| ==> v.fields["placeholders"].items[i] == BlockDataValue(data[i])
  {
    Card.Obj(map[
      "placeholders" := Card.Arr(seq(|data|, i requires 0 <= i < |data| => BlockDataValue(data[i]))),
      "backContentRaw" := raw])
  }

  /**
   * Nothing is lost in the encoding: the payload the store receives
   * determines the extract (every text and every range) and the raw document.
   */
  lemma {:induction false} ChangePayloadInjective(d1: seq<BlockData>, raw1: Card.Value, d2: seq<BlockData>, raw2: Card.Value)
    requires ChangePayload(d1, raw1) == ChangePayload(d2, raw2)
    ensures d1 == d2 && raw1 == raw2
  {
    var v1 := ChangePayload(d1, raw1);
    var v2 := ChangePayload(d2, raw2);
    assert |d1| == |v1.fields["placeholders"].items| == |v2.fields["placeholders"].items| == |d2|;
    forall i | 0 <= i < |d1|
      ensures d1[i] == d2[i]
    {
      var b1 := BlockDataValue(d1[i]);
      var b2 := BlockDataValue(d2[i]);
      assert b1 == v1.fields["placeholders"].items[i] == v2.fields["placeholders"].items[i] == b2;
      assert Card.Str(d1[i].text) == b1.fields["text"] == b2.fields["text"] == Card.Str(d2[i].text);
      var p1 := d1[i].placeholders;
      var p2 := d2[i].placeholders;
      assert |p1| == |b1.fields["placeholders"].items| == |b2.fields["placeholders"].items| == |p2|;
      forall n | 0 <= n < |p1|
        ensures p1[n] == p2[n]
      {
        var r1 := RangeValue(p1[n]);
        var r2 := RangeValue(p2[n]);
        assert r1 == b1.fields["placeholders"].items[n] == b2.fields["placeholders"].items[n] == r2;
        assert Card.Num(p1[n].start) == r1.fields["start"] == r2.fields["start"] == Card.Num(p2[n].start);
        assert Card.Num(p1[n].end) == r1.fields["stop"] == r2.fields["stop"] == Card.Num(p2[n].end);
      }
      assert p1 == p2;
    }
    assert v1.fields["backContentRaw"] == v2.fields["backContentRaw"];
  }

  // ---------------------------------------------------------------------
  // The button
  // ---------------------------------------------------------------------

  /** The entity tag at the start of the selection (no entity when the start block is missing). */
  function EntityAtStart(es: EditorState): Option<EntityKey> {
    match BlockIndex(es.content, StartKey(es.selection))
    case Some(bi) => EntityAt(es.content.blocks[bi], StartOffset(es.selection))
    case None => None
  }

  /**
   * The selection `removePlaceholder` clears: `range[0]`, the first run in
   * the start block of the entity at the selection's start.  There is one
   * exactly when an entity sits there, so the empty-range return is never
   * taken.  The run lies in the start block, starts at or before the start
   * offset, and no earlier character of the block carries that entity.
   */
  function RemovalSelection(es: EditorState): (r: Option<Selection>)
    requires ValidEditorState(es)
    ensures r.None? <==> EntityAtStart(es).None?
    ensures r.Some? ==>
              var bi := BlockIndex(es.content, StartKey(es.selection)).value;
              var tags := es.content.blocks[bi].entities;
              var key := EntityAtStart(es).value;
              && r.value == Selection(StartKey(es.selection), r.value.anchorOffset,
                                      StartKey(es.selection), r.value.focusOffset, false, es.selection.hasFocus)
              && r.value.anchorOffset <= StartOffset(es.selection)
              && r.value.anchorOffset < r.value.focusOffset <= |tags|
              && (forall m :: 0 <= m < r.value.anchorOffset ==> tags[m] != Some(key))
              && (forall m :: r.value.anchorOffset <= m < r.value.focusOffset ==> tags[m] == Some(key))
              && (r.value.focusOffset == |tags| || tags[r.value.focusOffset] != Some(key))
  {
    var selection := es.selection;
    var bi := BlockIndex(es.content, StartKey(selection)).value;
    var block := es.content.blocks[bi];
    var key := EntityAt(block, StartOffset(selection));
    if key.None? then None
    else
      FirstRangeOfEntity(block.entities, key.value, StartOffset(selection));
      var range := RangesForEntity(block.entities, key.value);
      if |range| == 0 then None
      else Some(Selection(StartKey(selection), range[0].start, block.key, range[0].end, false, selection.hasFocus))
  }

  /**
   * `removePlaceholder` on a valid state clears exactly its run and keeps the
   * state valid; every other character of every block keeps its tag.
   */
  lemma RemovalClearsOneRun(es: EditorState)
    requires ValidEditorState(es) && RemovalSelection(es).Some?
    ensures var r := RemoveEntities(es, RemovalSelection(es));
            var sel := RemovalSelection(es).value;
            var bi := BlockIndex(es.content, StartKey(es.selection)).value;
            && ValidEditorState(r)
            && r.selection == sel
            && (forall i, m :: 0 <= i < |es.content.blocks| && 0 <= m < |es.content.blocks[i].entities| ==>
                  r.content.blocks[i].entities[m] ==
                    if i == bi && sel.anchorOffset <= m < sel.focusOffset then None else es.content.blocks[i].entities[m])
  {
    var sel := RemovalSelection(es).value;
    var bi := BlockIndex(es.content, StartKey(es.selection)).value;
    assert es.content.blocks[bi].key == StartKey(es.selection);
    ClearRangeInBlock(es, bi, sel.anchorOffset, sel.focusOffset, es.selection.hasFocus);
  }

  /**
   * The button an unfrozen editor shows for `es`: the add button exactly for
   * a one-block range whose start carries no entity while a selection
   * rectangle is available, at that rectangle's top-right corner (scrolled);
   * the remove button exactly for a caret on an entity while its DOM node is
   * available, at the node's top-right corner (not scrolled); never both; and
   * when neither, the coordinates are not touched.
   */
  ghost predicate Derived(es: EditorState, g: Geometry, u: ButtonUpdate) {
    var sel := es.selection;
    var oneBlock := StartKey(sel) == EndKey(sel);
    var onEntity := EntityAtStart(es).Some?;
    && !(u.showAdd && u.showRemove)
    && (u.showAdd <==> oneBlock && !IsCollapsed(sel) && !onEntity && g.selectionRect.Some?)
    && (u.showRemove <==> oneBlock && IsCollapsed(sel) && onEntity && g.caretNodeRect.Some?)
    && (u.showAdd ==> u.coords == Some(Coords(
          g.selectionRect.value.top + g.scrollY - HalfButton,
          g.selectionRect.value.left + g.selectionRect.value.width - HalfButton)))
    && (u.showRemove ==> u.coords == Some(Coords(
          g.caretNodeRect.value.top - HalfButton,
          g.caretNodeRect.value.left + g.caretNodeRect.value.width - HalfButton)))
    && (!u.showAdd && !u.showRemove ==> u.coords.None?)
  }

  // ---------------------------------------------------------------------
  // The component
  // ---------------------------------------------------------------------

  class EditorComponent {
    var editorState: EditorState
    var showAddButton: bool
    var showRemoveButton: bool
    var buttonCoords: Coords
    var isButtonFrozen: bool

    /** The document engine's invariants hold, and the two buttons are never shown together. */
    ghost predicate Valid()
      reads this
    {
      ValidEditorState(editorState) && !(showAddButton && showRemoveButton)
    }

    /** A caret at the start of the first block, both buttons hidden, not frozen. */
    constructor (content: Content)
      requires ValidContent(content)
      ensures Valid()
      ensures editorState == EditorState(content, Selection(content.blocks[0].key, 0, content.blocks[0].key, 0, false, false))
      ensures !showAddButton && !showRemoveButton && !isButtonFrozen && buttonCoords == Coords(0, 0)
    {
      editorState := EditorState(content, Selection(content.blocks[0].key, 0, content.blocks[0].key, 0, false, false));
      showAddButton := false;
      showRemoveButton := false;
      buttonCoords := Coords(0, 0);
      isButtonFrozen := false;
      assert BlockIndex(content, content.blocks[0].key) == Some(0);
    }

    /**
     * Clears the selection, then tags it with a fresh PLACEHOLDER entity;
     * hides the add button and unfreezes.
     */
    method AddPlaceholder()
      requires Valid()
      modifies this
      ensures Valid()
      ensures editorState == AddEntity(RemoveEntities(old(editorState), None), PlaceholderKind, Mutable, map[])
      ensures !showAddButton && !isButtonFrozen
      ensures showRemoveButton == old(showRemoveButton) && buttonCoords == old(buttonCoords)
      ensures editorState.selection == old(editorState.selection)
      ensures var before := old(editorState.content);
              var key := editorState.content.lastKey;
              && key !in before.entityMap
              && editorState.content.entityMap == before.entityMap[key := Entity(PlaceholderKind, Mutable, map[])]
              && (forall i, m :: 0 <= i < |before.blocks| && 0 <= m < |before.blocks[i].entities| ==>
                    before.blocks[i].entities[m] != Some(key))
              && Retagged(before, editorState.content, old(editorState.selection), Some(key))
    {
      var cleared := RemoveEntities(editorState, None);
      RemoveEntitiesKeepsValid(editorState, None);
      AddEntityFresh(cleared, PlaceholderKind, Mutable, map[]);
      var added := AddEntity(cleared, PlaceholderKind, Mutable, map[]);
      RetaggedThen(editorState.content, cleared.content, added.content, editorState.selection, None, Some(added.content.lastKey));
      editorState := added;
      showAddButton := false;
      isButtonFrozen := false;
    }

    /**
     * When an entity sits at the selection's start, clears its first run in
     * the start block (`RemovalSelection`), which becomes the selection, hides
     * the remove button and unfreezes.  Otherwise nothing changes.
     */
    method RemovePlaceholder()
      requires Valid()
      modifies this
      ensures Valid()
      ensures showAddButton == old(showAddButton) && buttonCoords == old(buttonCoords)
      ensures RemovalSelection(old(editorState)).None? ==>
                editorState == old(editorState) && showRemoveButton == old(showRemoveButton) &&
                isButtonFrozen == old(isButtonFrozen)
      ensures RemovalSelection(old(editorState)).Some? ==>
                editorState == RemoveEntities(old(editorState), RemovalSelection(old(editorState))) &&
                !showRemoveButton && !isButtonFrozen
    {
      var newSelection := RemovalSelection(editorState);
      if newSelection.None? {
        return;
      }
      RemovalClearsOneRun(editorState);
      editorState := RemoveEntities(editorState, newSelection);
      showRemoveButton := false;
      isButtonFrozen := false;
    }

    /**
     * `showButtons`: nothing while the button is frozen; otherwise the
     * button state `Derived` describes for `es` and the browser geometry `g`.
     */
    method ShowButtons(es: EditorState, g: Geometry) returns (update: Option<ButtonUpdate>)
      requires ValidEditorState(es)
      ensures isButtonFrozen <==> update.None?
      ensures update.Some? ==> Derived(es, g, update.value)
    {
      if isButtonFrozen {
        return None;
      }
      var newState := ButtonUpdate(false, false, None);
      var selection := es.selection;
      var startKey := StartKey(selection);
      var endKey := EndKey(selection);
      if startKey != endKey {
        newState := newState.(showAdd := false, showRemove := false);
        return Some(newState);
      }
      var block := es.content.blocks[BlockIndex(es.content, startKey).value];
      var placeholderKey := EntityAt(block, StartOffset(selection));
      if !IsCollapsed(selection) {
        if placeholderKey.Some? {
          return Some(newState);
        }
        var rect := g.selectionRect;
        if rect.Some? {
          newState := newState.(showAdd := true);
          newState := newState.(coords := Some(Coords(
            rect.value.top + g.scrollY - HalfButton,
            rect.value.left + rect.value.width - HalfButton)));
          return Some(newState);
        }
      }
      if placeholderKey.Some? {
        var rect := g.caretNodeRect;
        if rect.Some? {
          newState := newState.(showRemove := true);
          newState := newState.(coords := Some(Coords(
            rect.value.top - HalfButton,
            rect.value.left + rect.value.width - HalfButton)));
          return Some(newState);
        }
      }
      return Some(newState);
    }

    /**
     * Takes the engine's new state, updates the button unless it is frozen,
     * and returns the action sent to the store with the new extract.
     */
    method OnChange(es: EditorState, g: Geometry, raw: Card.Value) returns (action: Card.Action)
      requires Valid() && ValidEditorState(es)
      modifies this
      ensures Valid()
      ensures editorState == es && isButtonFrozen == old(isButtonFrozen)
      ensures old(isButtonFrozen) ==>
                showAddButton == old(showAddButton) && showRemoveButton == old(showRemoveButton) &&
                buttonCoords == old(buttonCoords)
      ensures !old(isButtonFrozen) ==>
                exists u :: Derived(es, g, u) && showAddButton == u.showAdd && showRemoveButton == u.showRemove &&
                            buttonCoords == u.coords.GetOr(old(buttonCoords))
      ensures action == Card.UpdateBackContent(Some(ChangePayload(Extract(es.content), raw)))
    {
      var update := ShowButtons(es, g);
      var placeholders := ExtractPlaceholders(es.content);
      action := Card.UpdateBackContent(Some(ChangePayload(placeholders, raw)));
      editorState := es;
      if update.Some? {
        showAddButton := update.value.showAdd;
        showRemoveButton := update.value.showRemove;
        buttonCoords := update.value.coords.GetOr(buttonCoords);
      }
    }

    /** The pointer left the button: selection changes move it again. */
    method UnfreezeButton()
      requires Valid()
      modifies this
      ensures Valid()
      ensures !isButtonFrozen
      ensures editorState == old(editorState) && showAddButton == old(showAddButton)
      ensures showRemoveButton == old(showRemoveButton) && buttonCoords == old(buttonCoords)
    {
      isButtonFrozen := false;
    }

    /** The pointer entered the button: it stays where it is until unfrozen. */
    method FreezeButton()
      requires Valid()
      modifies this
      ensures Valid()
      ensures isButtonFrozen
      ensures editorState == old(editorState) && showAddButton == old(showAddButton)
      ensures showRemoveButton == old(showRemoveButton) && buttonCoords == old(buttonCoords)
    {
      isButtonFrozen := true;
    }
  }
}
