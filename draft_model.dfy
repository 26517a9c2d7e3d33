/**
 * The rich-text document the editor works on, in its own terms: an ordered
 * sequence of blocks, each with a key, a text and one optional entity tag per
 * character, an entity store with a key counter, and an anchor/focus
 * selection.  Only the primitives the editor relies on are modelled:
 * looking a block up by key, the entity at an offset, tagging the selected
 * offsets with an entity (or clearing them), and grouping a block's tags into
 * maximal runs of one value that pass a filter.
 */
module DraftModel {
  import opened Options

  type EntityKey = nat
  type BlockKey = string

  /** The entity tag of each character of a block, in order. */
  type Tags = seq<Option<EntityKey>>

  datatype Mutability = Mutable | Immutable | Segmented

  datatype Entity = Entity(kind: string, mutability: Mutability, data: map<string, string>)

  datatype BlockType = Unstyled | CodeBlock | OtherType(name: string)

  /** One paragraph; `entities[m]` tags character `m` of `text`. */
  datatype Block = Block(key: BlockKey, blockType: BlockType, text: string, entities: Tags)

  /**
   * A document snapshot.  `lastKey` is the entity-key counter: a new entity
   * gets `lastKey + 1`.
   */
  datatype Content = Content(blocks: seq<Block>, entityMap: map<EntityKey, Entity>, lastKey: nat)

  datatype Selection = Selection(
    anchorKey: BlockKey, anchorOffset: nat,
    focusKey: BlockKey, focusOffset: nat,
    isBackward: bool, hasFocus: bool)

  /** What the editor holds: the current content and the current selection. */
  datatype EditorState = EditorState(content: Content, selection: Selection)

  /** A half-open offset range `[start, end)` inside one block. */
  datatype Range = Range(start: nat, end: nat)

  // ---------------------------------------------------------------------
  // Selection accessors
  // ---------------------------------------------------------------------

  function StartKey(s: Selection): BlockKey { if s.isBackward then s.focusKey else s.anchorKey }
  function StartOffset(s: Selection): nat { if s.isBackward then s.focusOffset else s.anchorOffset }
  function EndKey(s: Selection): BlockKey { if s.isBackward then s.anchorKey else s.focusKey }
  function EndOffset(s: Selection): nat { if s.isBackward then s.anchorOffset else s.focusOffset }

  predicate IsCollapsed(s: Selection) {
    s.anchorKey == s.focusKey && s.anchorOffset == s.focusOffset
  }

  // ---------------------------------------------------------------------
  // Blocks by key
  // ---------------------------------------------------------------------

  function KeysOf(blocks: seq<Block>): (keys: seq<BlockKey>)
    ensures |keys| == |blocks|
    ensures forall i :: 0 <= i < |blocks| ==> keys[i] == blocks[i].key
  {
    seq(|blocks|, i requires 0 <= i < |blocks| => blocks[i].key)
  }

  /** The position of the first block with key `key`, if there is one. */
  function IndexOfKey(keys: seq<BlockKey>, key: BlockKey): (r: Option<nat>)
    ensures r.Some? ==> r.value < |keys| && keys[r.value] == key
    ensures r.Some? ==> forall j :: 0 <= j < r.value ==> keys[j] != key
    ensures r.None? <==> key !in keys
  {
    if |keys| == 0 then None
    else if keys[0] == key then Some(0)
    else
      match IndexOfKey(keys[1..], key)
      case None => None
      case Some(j) => Some(j + 1)
  }

  function BlockIndex(c: Content, key: BlockKey): Option<nat> {
    IndexOfKey(KeysOf(c.blocks), key)
  }

  /** The entity tag at `offset`; no entity at or past the end of the text. */
  function EntityAt(b: Block, offset: nat): (e: Option<EntityKey>)
    ensures offset >= |b.entities| ==> e.None?
    ensures offset < |b.entities| ==> e == b.entities[offset]
  {
    if offset < |b.entities| then b.entities[offset] else None
  }

  // ---------------------------------------------------------------------
  // Invariants the document engine maintains
  // ---------------------------------------------------------------------

  /**
   * At least one block; one tag per character; unique block keys; every
   * referenced entity is registered; no registered key exceeds the counter.
   */
  ghost predicate ValidContent(c: Content) {
    && |c.blocks| > 0
    && (forall i :: 0 <= i < |c.blocks| ==> |c.blocks[i].entities| == |c.blocks[i].text|)
    && (forall i, j :: 0 <= i < j < |c.blocks| ==> c.blocks[i].key != c.blocks[j].key)
    && (forall k :: k in c.entityMap ==> k <= c.lastKey)
    && (forall i, m :: 0 <= i < |c.blocks| && 0 <= m < |c.blocks[i].entities| && c.blocks[i].entities[m].Some? ==>
          c.blocks[i].entities[m].value in c.entityMap)
  }

  /** Both ends name blocks of `c`, in document order, at offsets inside their texts. */
  ghost predicate ValidSelection(c: Content, s: Selection) {
    var si := BlockIndex(c, StartKey(s));
    var ei := BlockIndex(c, EndKey(s));
    && si.Some? && ei.Some? && si.value <= ei.value
    && StartOffset(s) <= |c.blocks[si.value].text|
    && EndOffset(s) <= |c.blocks[ei.value].text|
    && (si.value == ei.value ==> StartOffset(s) <= EndOffset(s))
  }

  ghost predicate ValidEditorState(es: EditorState) {
    ValidContent(es.content) && ValidSelection(es.content, es.selection)
  }

  /** In a valid document, looking up the key of block `bi` finds block `bi`. */
  lemma BlockIndexOfOwnKey(c: Content, bi: nat)
    requires ValidContent(c) && bi < |c.blocks|
    ensures BlockIndex(c, c.blocks[bi].key) == Some(bi)
  {
    var keys := KeysOf(c.blocks);
    assert keys[bi] == c.blocks[bi].key;
    var found := IndexOfKey(keys, c.blocks[bi].key);
    assert c.blocks[found.value].key == c.blocks[bi].key;
  }

  // ---------------------------------------------------------------------
  // Tagging the selected offsets
  // ---------------------------------------------------------------------

  /**
   * Offset `m` of block `i` lies inside `s`: blocks strictly between the two
   * ends are covered whole, the start block from the start offset on, the end
   * block up to (excluding) the end offset.
   */
  predicate Covers(keys: seq<BlockKey>, s: Selection, i: nat, m: nat) {
    var si := IndexOfKey(keys, StartKey(s));
    var ei := IndexOfKey(keys, EndKey(s));
    && si.Some? && ei.Some? && si.value <= i <= ei.value
    && (i == si.value ==> StartOffset(s) <= m)
    && (i == ei.value ==> m < EndOffset(s))
  }

  /** `after` is `before` with every offset covered by `s` tagged `e`, and nothing else changed. */
  ghost predicate Retagged(before: Content, after: Content, s: Selection, e: Option<EntityKey>) {
    && |after.blocks| == |before.blocks|
    && KeysOf(after.blocks) == KeysOf(before.blocks)
    && (forall i :: 0 <= i < |before.blocks| ==>
          && after.blocks[i].blockType == before.blocks[i].blockType
          && after.blocks[i].text == before.blocks[i].text
          && |after.blocks[i].entities| == |before.blocks[i].entities|)
    && (forall i, m :: 0 <= i < |before.blocks| && 0 <= m < |before.blocks[i].entities| ==>
          after.blocks[i].entities[m] ==
            if Covers(KeysOf(before.blocks), s, i, m) then e else before.blocks[i].entities[m])
  }

  function RetagBlock(b: Block, keys: seq<BlockKey>, s: Selection, i: nat, e: Option<EntityKey>): Block {
    b.(entities := seq(|b.entities|, m requires 0 <= m < |b.entities| =>
                         if Covers(keys, s, i, m) then e else b.entities[m]))
  }

  /** Tags every selected offset with `e` (`None` clears it); blocks, texts and the entity store stay. */
  function ApplyEntity(c: Content, s: Selection, e: Option<EntityKey>): (r: Content)
    ensures Retagged(c, r, s, e)
    ensures r.entityMap == c.entityMap && r.lastKey == c.lastKey
  {
    var keys := KeysOf(c.blocks);
    c.(blocks := seq(|c.blocks|, i requires 0 <= i < |c.blocks| => RetagBlock(c.blocks[i], keys, s, i, e)))
  }

  /** Of two retaggings of the same selection, the later tag is the one that stays. */
  lemma RetaggedThen(c: Content, r1: Content, r2: Content, s: Selection, e1: Option<EntityKey>, e2: Option<EntityKey>)
    requires Retagged(c, r1, s, e1) && Retagged(r1, r2, s, e2)
    ensures Retagged(c, r2, s, e2)
  {
  }

  /** Applying the same tag to the same selection twice is applying it once. */
  lemma RetaggedTwice(c: Content, r1: Content, r2: Content, s: Selection, e: Option<EntityKey>)
    requires Retagged(c, r1, s, e) && Retagged(r1, r2, s, e)
    requires r2.entityMap == r1.entityMap && r2.lastKey == r1.lastKey
    ensures r2 == r1
  {
    forall i | 0 <= i < |r1.blocks|
      ensures r2.blocks[i] == r1.blocks[i]
    {
      assert r2.blocks[i].key == KeysOf(r2.blocks)[i] == KeysOf(r1.blocks)[i] == r1.blocks[i].key;
      assert r2.blocks[i].entities == r1.blocks[i].entities;
    }
    assert r2.blocks == r1.blocks;
  }

  /** Retagging keeps block keys and text lengths, so it keeps every selection valid. */
  lemma RetaggedKeepsSelections(c: Content, r: Content, s: Selection, e: Option<EntityKey>, t: Selection)
    requires Retagged(c, r, s, e)
    requires ValidSelection(c, t)
    ensures ValidSelection(r, t)
  {
    assert BlockIndex(r, StartKey(t)) == BlockIndex(c, StartKey(t));
    assert BlockIndex(r, EndKey(t)) == BlockIndex(c, EndKey(t));
  }

  /** Retagging with a registered entity (or with none) keeps the document valid. */
  lemma RetaggedKeepsContent(c: Content, r: Content, s: Selection, e: Option<EntityKey>)
    requires Retagged(c, r, s, e) && r.entityMap == c.entityMap && r.lastKey == c.lastKey
    requires ValidContent(c)
    requires e.None? || e.value in c.entityMap
    ensures ValidContent(r)
  {
    forall i, j | 0 <= i < j < |r.blocks|
      ensures r.blocks[i].key != r.blocks[j].key
    {
      assert r.blocks[i].key == KeysOf(r.blocks)[i] == KeysOf(c.blocks)[i] == c.blocks[i].key;
      assert r.blocks[j].key == KeysOf(r.blocks)[j] == KeysOf(c.blocks)[j] == c.blocks[j].key;
    }
  }

  // ---------------------------------------------------------------------
  // Runs of equal tags
  // ---------------------------------------------------------------------

  /** One past the end of the maximal run of tags equal to `s[i]` that starts at `i`. */
  function RunEnd(s: Tags, i: nat): (j: nat)
    requires i < |s|
    ensures i < j <= |s|
    ensures forall m :: i <= m < j ==> s[m] == s[i]
    ensures j < |s| ==> s[j] != s[i]
    decreases |s| - i
  {
    if i + 1 < |s| && s[i + 1] == s[i] then RunEnd(s, i + 1) else i + 1
  }

  /**
   * The maximal runs of equal tags from offset `i` on whose tag passes
   * `keep`, left to right, each as a half-open range.
   */
  function RangesFrom(s: Tags, keep: Option<EntityKey> -> bool, i: nat): seq<Range>
    requires i <= |s|
    decreases |s| - i
  {
    if i == |s| then []
    else
      var j := RunEnd(s, i);
      (if keep(s[i]) then [Range(i, j)] else []) + RangesFrom(s, keep, j)
  }

  /**
   * The block-level `findEntityRanges(filter, callback)`: every range handed
   * to the callback, in order.  Each is a maximal run of one tag that passes
   * the filter and they are disjoint and increasing; `RangesFromCover` shows
   * that together they cover exactly the offsets whose tag passes.
   */
  function FindEntityRanges(s: Tags, keep: Option<EntityKey> -> bool): (rs: seq<Range>)
    ensures forall n :: 0 <= n < |rs| ==> IsKeptRun(s, keep, rs[n])
    ensures forall a, b :: 0 <= a < b < |rs| ==> rs[a].end <= rs[b].start
  {
    RangesFromAreKeptRuns(s, keep, 0);
    RangesFromOrdered(s, keep, 0);
    RangesFrom(s, keep, 0)
  }

  function IsTagged(key: EntityKey): Option<EntityKey> -> bool {
    e => e == Some(key)
  }

  /**
   * The runs of one entity inside a block (`getRangesForDraftEntity`): the
   * maximal runs of `key`, disjoint and increasing.
   */
  function RangesForEntity(s: Tags, key: EntityKey): (rs: seq<Range>)
    ensures forall n :: 0 <= n < |rs| ==> rs[n].start < rs[n].end <= |s|
    ensures forall n, m :: 0 <= n < |rs| && rs[n].start <= m < rs[n].end ==> s[m] == Some(key)
    ensures forall n :: 0 <= n < |rs| && 0 < rs[n].start ==> s[rs[n].start - 1] != Some(key)
    ensures forall n :: 0 <= n < |rs| && rs[n].end < |s| ==> s[rs[n].end] != Some(key)
    ensures forall a, b :: 0 <= a < b < |rs| ==> rs[a].end <= rs[b].start
  {
    FindEntityRanges(s, IsTagged(key))
  }

  /** `r` is a maximal, non-empty run of one tag that passes `keep`. */
  ghost predicate IsKeptRun(s: Tags, keep: Option<EntityKey> -> bool, r: Range) {
    && r.start < r.end <= |s|
    && keep(s[r.start])
    && (forall m :: r.start <= m < r.end ==> s[m] == s[r.start])
    && (r.start == 0 || s[r.start - 1] != s[r.start])
    && (r.end == |s| || s[r.end] != s[r.start])
  }

  ghost predicate Covered(rs: seq<Range>, m: nat) {
    exists n :: 0 <= n < |rs| && rs[n].start <= m < rs[n].end
  }

  /** Offset `i` begins a run: it is the first offset, the end, or its tag differs from the one before. */
  ghost predicate AtRunStart(s: Tags, i: nat) {
    i == 0 || i >= |s| || s[i - 1] != s[i]
  }

  lemma {:induction false} RangesFromBounds(s: Tags, keep: Option<EntityKey> -> bool, i: nat)
    requires i <= |s|
    ensures forall n :: 0 <= n < |RangesFrom(s, keep, i)| ==>
              i <= RangesFrom(s, keep, i)[n].start < RangesFrom(s, keep, i)[n].end <= |s|
    decreases |s| - i
  {
    if i < |s| {
      RangesFromBounds(s, keep, RunEnd(s, i));
    }
  }

  /** Every reported range is a maximal run of one tag that passes the filter. */
  lemma {:induction false} RangesFromAreKeptRuns(s: Tags, keep: Option<EntityKey> -> bool, i: nat)
    requires i <= |s| && AtRunStart(s, i)
    ensures forall n :: 0 <= n < |RangesFrom(s, keep, i)| ==> IsKeptRun(s, keep, RangesFrom(s, keep, i)[n])
    decreases |s| - i
  {
    if i < |s| {
      var j := RunEnd(s, i);
      assert s[j - 1] == s[i];
      RangesFromAreKeptRuns(s, keep, j);
    }
  }

  /** Reported ranges are disjoint and in increasing order. */
  lemma {:induction false} RangesFromOrdered(s: Tags, keep: Option<EntityKey> -> bool, i: nat)
    requires i <= |s|
    ensures forall a, b :: 0 <= a < b < |RangesFrom(s, keep, i)| ==>
              RangesFrom(s, keep, i)[a].end <= RangesFrom(s, keep, i)[b].start
    decreases |s| - i
  {
    if i < |s| {
      var j := RunEnd(s, i);
      RangesFromOrdered(s, keep, j);
      RangesFromBounds(s, keep, j);
    }
  }

  lemma CoveredConcat(head: seq<Range>, rest: seq<Range>, m: nat)
    ensures Covered(head + rest, m) <==> Covered(head, m) || Covered(rest, m)
  {
    var rs := head + rest;
    if Covered(rs, m) {
      var n :| 0 <= n < |rs| && rs[n].start <= m < rs[n].end;
      if n >= |head| {
        assert rest[n - |head|] == rs[n];
      }
    }
    if Covered(head, m) {
      var n :| 0 <= n < |head| && head[n].start <= m < head[n].end;
      assert rs[n] == head[n];
    }
    if Covered(rest, m) {
      var n :| 0 <= n < |rest| && rest[n].start <= m < rest[n].end;
      assert rs[n + |head|] == rest[n];
    }
  }

  /** An offset from `i` on is covered by a reported range exactly when its tag passes the filter. */
  lemma {:induction false} RangesFromCover(s: Tags, keep: Option<EntityKey> -> bool, i: nat)
    requires i <= |s|
    ensures forall m :: i <= m < |s| ==> (Covered(RangesFrom(s, keep, i), m) <==> keep(s[m]))
    decreases |s| - i
  {
    if i < |s| {
      var j := RunEnd(s, i);
      var head := if keep(s[i]) then [Range(i, j)] else [];
      var rest := RangesFrom(s, keep, j);
      assert RangesFrom(s, keep, i) == head + rest;
      RangesFromCover(s, keep, j);
      RangesFromBounds(s, keep, j);
      forall m | i <= m < |s|
        ensures Covered(head + rest, m) <==> keep(s[m])
      {
        CoveredConcat(head, rest, m);
        if m < j {
          assert !Covered(rest, m) by {
            forall n | 0 <= n < |rest|
              ensures !(rest[n].start <= m < rest[n].end)
            {
            }
          }
          if keep(s[m]) {
            assert head[0] == Range(i, j);
          }
        } else {
          assert !Covered(head, m);
        }
      }
    }
  }

  /**
   * `getRangesForDraftEntity(block, key)[0]` when `key` tags `offset`: there
   * is at least one range, and the first one is the first run of `key` in the
   * block, which starts at or before `offset` but need not contain it.
   */
  lemma FirstRangeOfEntity(s: Tags, key: EntityKey, offset: nat)
    requires offset < |s| && s[offset] == Some(key)
    ensures |RangesForEntity(s, key)| > 0
    ensures RangesForEntity(s, key)[0].start <= offset < |s|
    ensures RangesForEntity(s, key)[0].end <= |s|
    ensures forall m :: 0 <= m < RangesForEntity(s, key)[0].start ==> s[m] != Some(key)
    ensures forall m :: RangesForEntity(s, key)[0].start <= m < RangesForEntity(s, key)[0].end ==> s[m] == Some(key)
    ensures RangesForEntity(s, key)[0].end == |s| || s[RangesForEntity(s, key)[0].end] != Some(key)
  {
    var keep := IsTagged(key);
    var rs := RangesForEntity(s, key);
    RangesFromCover(s, keep, 0);
    RangesFromOrdered(s, keep, 0);
    RangesFromAreKeptRuns(s, keep, 0);
    assert keep(s[offset]);
    assert Covered(rs, offset);
    var n :| 0 <= n < |rs| && rs[n].start <= offset < rs[n].end;
    assert IsKeptRun(s, keep, rs[0]);
    forall m | 0 <= m < rs[0].start
      ensures s[m] != Some(key)
    {
      forall n | 0 <= n < |rs|
        ensures !(rs[n].start <= m < rs[n].end)
      {
        if n > 0 {
          assert rs[0].end <= rs[n].start;
        }
      }
      assert !Covered(rs, m);
    }
  }
}
