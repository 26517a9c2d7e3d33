# Flashcard editor: placeholder entities, the floating button, and the card store

This project models the core of a flashcard editing screen. Inside a rich-text
editor the user marks stretches of text as *placeholders*: blanks to be filled
in later. A floating button follows the selection. It offers "add" over
untagged highlighted text and "remove" with the caret on a placeholder. It can
be *frozen* while the pointer hovers it. On every change the editor sends the
store an extract: per block, the text and the `{start, stop}` ranges of its
placeholders. A reducer keeps the latest extract.

The rich-text engine is modelled in its own terms, not treated as a black box
(module `DraftModel`, `draft_model.dfy`):

- A document is a sequence of blocks. Each block has a key, a type, a text and
  one optional entity key per character.
- Each document has an entity store with a key counter. A selection has an
  anchor and a focus (block key and offset each) and a backward flag.
- `EntityAt` gives no entity past the end of the text.
- `ApplyEntity` overwrites the tags of the selected offsets. Offsets are
  half-open: the end offset is excluded.
- `FindEntityRanges` returns the maximal runs of one tag that pass a filter, as
  half-open ranges, left to right.

On top of it:

- `editor.dfy` (module `Editor`) holds the component. It is a class whose five
  fields are the component's state: `editorState`, `showAddButton`,
  `showRemoveButton`, `buttonCoords` and `isButtonFrozen`. Its methods update
  them as `setState` does. `addEntity` and `removeEntities` are functions from
  snapshot to snapshot. `showButtons` is a method with the source's early
  returns. `extractPlaceholders` is a pair of loops: one over the blocks, and
  one that pushes each run into the block's list.
- `card.dfy` (module `Card`) holds the action creator and the reducer. They
  work on JavaScript objects, modelled as maps from property names to values.
- `options.dfy` holds the `Option` type used for `null`/`undefined`.

Each character carries at most one entity key, because a tag is a single
`Option`. So two placeholders never share a character. A placeholder is not
confined to one block, though. The add button is only offered over a
selection inside one block, but while the button is frozen `showButtons`
changes nothing. The selection can then be extended into a later block before
the click, and `addPlaceholder` tags the tail of the start block and the head
of the end block with the same key (`Editor.PlaceholderSpansBlocks`).

Two behaviours of the code are easy to misread:

- A new placeholder over part of an older one does not untag the older one's
  remaining characters. `addPlaceholder` clears and retags only the new
  selection, so those characters keep the old key, and the old entity can fall
  into two runs (`Editor.OverlapSplitsOlderPlaceholder`).
- `removePlaceholder` does not look for the run under the caret. It clears
  `range[0]`, the first run in the block of the entity under the caret. That
  run starts at or before the caret but need not contain it
  (`DraftModel.FirstRangeOfEntity`, `Editor.RemovalSelection`). The two differ
  only once an entity has two runs in a block, which the overlap above
  produces. The add button is not offered over a selection that starts on an
  entity, but while the button is frozen the selection can still move before
  the click.

## Model

| member | source | states |
|---|---|---|
| `DraftModel.IndexOfKey` | src/routes/Home/components/Editor.js:114-115 | `getBlockForKey`: the block found has the key, no earlier block has it, and there is none exactly when the key is absent |
| `DraftModel.EntityAt` | src/routes/Home/components/Editor.js:165-167 | `getEntityAt`: the character's tag inside the text, and no entity at or past its end |
| `DraftModel.ApplyEntity` | src/routes/Home/components/Editor.js:314-318 | `Modifier.applyEntity`: exactly the selected offsets (start block from the start offset, end block up to but excluding the end offset, blocks between in full) get the tag; every other offset, block key, text, type and the entity store are unchanged |
| `DraftModel.RunEnd` | src/routes/Home/components/Editor.js:340-348 | the run grouping of `findEntityRanges`: the run from `i` ends at the first differing tag or at the end of the block |
| `DraftModel.RangesFromBounds` | src/routes/Home/components/Editor.js:340-348 | every reported range is non-empty and inside the block |
| `DraftModel.RangesFromAreKeptRuns` | src/routes/Home/components/Editor.js:340-348 | every reported range is a maximal run of one tag that passes the filter: no equal tag just before or just after it |
| `DraftModel.RangesFromOrdered` | src/routes/Home/components/Editor.js:340-348 | reported ranges are disjoint and in increasing order |
| `DraftModel.RangesFromCover` | src/routes/Home/components/Editor.js:340-348 | an offset lies in a reported range exactly when its tag passes the filter |
| `DraftModel.FindEntityRanges` | src/routes/Home/components/Editor.js:340-348 | `findEntityRanges(filter, callback)`: the ranges handed to the callback, left to right. Each is a maximal run of one tag that passes the filter, and they are disjoint and increasing. That they cover exactly the offsets whose tag passes is `DraftModel.RangesFromCover` |
| `DraftModel.RangesForEntity` | src/routes/Home/components/Editor.js:121 | `getRangesForDraftEntity(block, key)`: the maximal runs of `key` in the block, each non-empty, inside the block and carrying `key` throughout, disjoint and increasing |
| `DraftModel.FirstRangeOfEntity` | src/routes/Home/components/Editor.js:120-130 | when the entity tags the start offset, `getRangesForDraftEntity` is non-empty. `range[0]` is the entity's first run in the block: nothing before it carries the key, it starts at or before the offset, and it is maximal |
| `DraftModel.RetaggedTwice` | src/routes/Home/components/Editor.js:323-327 | retagging the same selection with the same tag a second time changes nothing |
| `DraftModel.RetaggedThen` | src/routes/Home/components/Editor.js:103 | clearing and then tagging one selection leaves the second tag on it |
| `Editor.AddEntity` | src/routes/Home/components/Editor.js:305-321 | registers `Entity(kind, mutability, data)` under the next key and tags exactly the current selection with it; the selection and every other offset stay |
| `Editor.AddEntityFresh` | src/routes/Home/components/Editor.js:308-312 | on a valid state the new key was neither registered nor on any character, and the state stays valid |
| `Editor.RemoveEntities` | src/routes/Home/components/Editor.js:323-327 | clears exactly the offsets of the given selection, or of the current one when none is given; that selection becomes current; nothing else changes |
| `Editor.RemoveEntitiesIdempotent` | src/routes/Home/components/Editor.js:323-327 | applying `removeEntities` twice with the same selection equals applying it once |
| `Editor.RemoveEntitiesKeepsValid` | src/routes/Home/components/Editor.js:323-327 | clearing a valid selection keeps the document and the selection valid |
| `Editor.OverlapSplitsOlderPlaceholder` | src/routes/Home/components/Editor.js:97-141 | adding a placeholder over offsets 4-6 of one spanning 2-8 leaves the old key on 2-4 and 6-8. With the caret at 7, `range[0]` is 2-4, which does not contain the caret |
| `Editor.PlaceholderSpansBlocks` | src/routes/Home/components/Editor.js:97-103 | on every valid state whose selection starts and ends in different blocks, the placeholder `addPlaceholder` creates sits on the start block at the start offset and on the later end block just before the end offset |
| `Editor.PlaceholderStrategy` | src/routes/Home/components/Editor.js:292-303 | the decorated ranges are maximal runs of one non-null entity, disjoint and in order, and cover exactly the characters that carry an entity |
| `Editor.ExtractShape` | src/routes/Home/components/Editor.js:329-352 | one entry per block in document order, text copied verbatim. Each block's ranges are non-empty and within the text, increasing and disjoint, and each is a maximal run of one non-null entity. They cover exactly the characters that carry an entity |
| `Editor.ExtractBlock` | src/routes/Home/components/Editor.js:339-348 | the run scan with the push callback yields exactly the block's text and its `findEntityRanges` ranges for the non-null filter |
| `Editor.ExtractPlaceholders` | src/routes/Home/components/Editor.js:329-352 | returns the extract of every block in order |
| `Editor.RangeValue` | src/routes/Home/components/Editor.js:347 | a pushed range is the object `{start, stop}` with exactly those two properties, `stop` the run's end |
| `Editor.BlockDataValue` | src/routes/Home/components/Editor.js:333-336 | a block's extract is the object `{text, placeholders}` with exactly those two properties: the text, and one `{start, stop}` per range in order |
| `Editor.ChangePayload` | src/routes/Home/components/Editor.js:223-226 | the store payload is the object `{placeholders, backContentRaw}` with exactly those two properties: one entry per block in order, and the serialized document |
| `Editor.ChangePayloadInjective` | src/routes/Home/components/Editor.js:223-226 | two payloads are equal only when their extracts (every text and every range) and their serialized documents are equal, so the store receives the extract without loss |
| `Editor.RemovalSelection` | src/routes/Home/components/Editor.js:111-132 | the selection `removePlaceholder` clears exists exactly when an entity sits at the selection's start, so the empty-range return is never taken. It is `range[0]`: in the start block, not backward, focus kept, non-empty, inside the block, starting at or before the start offset, carrying the entity throughout, with no earlier character of the block carrying it and the next character not carrying it |
| `Editor.ClearRangeInBlock` | src/routes/Home/components/Editor.js:323-327 | `removeEntities` over a range inside one block of a valid state keeps it valid and clears exactly that range of that block; every other character keeps its tag |
| `Editor.RemovalClearsOneRun` | src/routes/Home/components/Editor.js:134-138 | applying `removeEntities` to the removal selection keeps the state valid, makes that selection current, and clears exactly the run `range[0]` in the start block; every other character of every block keeps its tag |
| `Editor.EditorComponent.constructor` | src/routes/Home/components/Editor.js:79-85 | initial state: caret at the start of the first block, both buttons hidden, coordinates (0, 0), not frozen |
| `Editor.EditorComponent.AddPlaceholder` | src/routes/Home/components/Editor.js:97-109 | the selection carries one fresh PLACEHOLDER/MUTABLE entity key that was on no character before. Every other offset keeps its tag, old keys included. The add button is hidden and the button unfrozen; the other fields stay. Validity and "never both buttons" are kept |
| `Editor.EditorComponent.RemovePlaceholder` | src/routes/Home/components/Editor.js:111-141 | when `Editor.RemovalSelection` finds no run, nothing changes. Otherwise the state becomes `removeEntities` of that selection, the remove button is hidden and the button unfrozen; the add button and the coordinates stay; validity and "never both buttons" are kept |
| `Editor.EditorComponent.ShowButtons` | src/routes/Home/components/Editor.js:144-212 | nothing while frozen. Otherwise add shows exactly for a one-block range with no entity at its start offset and a selection rectangle, at (top + scrollY − 12, left + width − 12). Remove shows exactly for a caret on an entity with a node rectangle, at (top − 12, left + width − 12). Never both; both hidden across blocks; coordinates untouched when neither shows |
| `Editor.EditorComponent.OnChange` | src/routes/Home/components/Editor.js:216-229 | the new state is always taken and the store always gets the new extract. While frozen the button flags and coordinates keep their old values; otherwise they are what `ShowButtons` derives, coordinates merged only when set |
| `Editor.EditorComponent.FreezeButton` | src/routes/Home/components/Editor.js:237-241 | sets the freeze flag and changes nothing else; validity and "never both buttons" are kept |
| `Editor.EditorComponent.UnfreezeButton` | src/routes/Home/components/Editor.js:231-235 | clears the freeze flag and changes nothing else; validity and "never both buttons" are kept |
| `Card.UpdateBackContent` | src/store/card.js:9-14 | the action has type `CARD_BACK_CONTENT_CHANGE` and carries the payload, or `{}` when none is given |
| `Card.HandleBackContentChange` | src/store/card.js:23-25 | `backContent` becomes the payload and every other property is kept, so `placeholders` and `backContentRaw` are never written |
| `Card.Reducer` | src/store/card.js:30-38 | an undefined state starts as `{placeholders: [], backContentRaw: []}`. An action type with no handler returns the state unchanged. A change action sets `backContent` to the payload and keeps every other property |
| `Card.LastWriteWins` | src/store/card.js:24 | after two change actions only the second payload is in `backContent`, as if the first had not happened |
| `Card.ChangeIdempotent` | src/store/card.js:24 | dispatching the same change action twice equals dispatching it once |

## Left out

- Rendering (`render`, the `Placeholder` component, `classNames`) is UI and is not modelled.
- Browser geometry is not modelled. `getVisibleSelectionRect(window)`, `document.getSelection()`, `getBoundingClientRect()` and `window.scrollY` become the `Geometry` parameter of `OnChange` and `ShowButtons`, with integer rectangles.
- `Math.round` is not modelled: on integer rectangles it is the identity.
- The caret node is a single `caretNodeRect` in the model. The source tests `focusNode` but measures `baseNode`; for a collapsed caret they are the same node.
- The deferred refocus (`setTimeout`, `this.refs.editor.focus()`) is scheduling and DOM side effects, and is not modelled.
- Syntax highlighting (`PrismDraftDecorator`), `MultiDecorator` and the decorator priority order are not modelled. Only the ranges `placeholderStrategy` decorates are.
- `convertFromRaw`, `convertToRaw` and the `rawContent` test data are not modelled. The constructor takes the initial content; `OnChange` takes the serialized document `raw` as a parameter.
- `connect`/`mapDispatchToProps` are not modelled: `OnChange` returns the action that is dispatched. The `console.log` in the reducer is left out.
- `src/store/reducers.js` (store wiring) and `src/routes/Home/components/HomeView.js` (static markup) are not part of this model.
- The engine's undo/redo stacks, change types and `forceSelection` are not modelled. An editor state is its content and its selection. Pushing a new content makes the selection it was applied with current.
- The engine's removal of IMMUTABLE and SEGMENTED entities at the selection edges inside `applyEntity` is not modelled. Every entity this editor creates is MUTABLE, so on documents built by the editor that removal never fires. The model still accepts initial content holding such entities; on such a document the engine would also strip those entities where a selection edge cuts them, and the model does not.
- The engine keeps one global entity store. The model keeps the store and its key counter in each content snapshot, so a new key is one more than the counter.
- `getRangesForDraftEntity` raises an error when the entity has no run in the block. The model returns the empty list instead, and the editor's `range.length === 0` check then does nothing. `FirstRangeOfEntity` proves the case cannot arise when the entity was read from the block.
- Selections are assumed valid, as the engine guarantees: both keys exist, the ends are in document order and the offsets lie within the texts. Behaviour on other selections is not modelled.
- `setState` merging and its asynchrony are modelled as immediate field assignments.
- The reducer's lookup does not model JavaScript's prototype chain. An action type such as `"constructor"` would find an inherited function in `ACTION_HANDLERS`; in the model such a type has no handler.
- Text offsets count characters. The source counts UTF-16 code units; the two differ only outside the Basic Multilingual Plane.
