# edit-on-slate: the formatting commands and the markdown shortcuts, in Dafny

This project models the document-mutation core of edit-on-slate, a rich-text
editor built on Slate. It covers three parts:

- the document types (`src/utils/types.ts`);
- the toolbar commands and queries (`src/utils/editorUtils.ts`);
- the markdown-shortcut plugin (`src/plugins/withShortcuts.ts`).

The commands call Slate primitives (`Transforms.select`, `delete`,
`setNodes`, `unwrapNodes`, `wrapNodes`, and `Editor.marks` and
`Editor.unhangRange`). Those primitives get an abstract model, at the
precision the commands need.

Modules:

- `Types` (types.dfy) covers text leaves and their marks, and elements with
  one of eight block kinds, ordered children and an optional alignment.
- `Leaves` (leaves.dfy) covers the leaves of one text block, character by
  character:
  - setting a property with splitting restyles exactly the selected
    characters;
  - deleting a prefix keeps the remaining characters with their marks.
- `Document` (document.dfy) covers the tree seen block by block. Each text
  block becomes a `Line`: the chain of element headers from the top level
  down to the block, and the block's leaves. It also holds:
  - points, as a text-block index plus a character offset;
  - ranges and `unhangRange`;
  - `setNodes` on the lowest blocks of a span, as a function on trees
    (`EditSeq`) and on lines (`EditAll`), with the lemma connecting the two.
- `Structure` (structure.dfy) covers `unwrapNodes` on list containers with
  `split: true` and `wrapNodes` with a fresh wrapper, on trees. It also
  proves what each does to every block's chain of ancestors.
- `Slate` (editor.dfy) holds the `Editor` class:
  - its fields are the children, the selection, the pending marks, and the
    calls handed on to the base `insertText` and `deleteBackward`;
  - its in-place primitives state their new state through the functions
    above.
- `EditorUtils` (editor_utils.dfy) holds `toggleMark`, `isMarkActive`,
  `toggleBlock`, `isBlockActive`, `toggleTextAlign`, `isTextAlignActive`,
  `toggleFontFamily` and `toggleFontColor`. The commands are methods on the
  editor, and the queries are predicates reading it.
- `Shortcuts` (shortcuts.dfy) holds the `insertText` and `deleteBackward`
  overrides, the shortcut table, and lemmas about a shortcut followed by a
  backspace.

Three behaviours of the code worth noting:

- The list shortcut (`* `, `1. ` and so on) sets the block's own `type` to
  the list kind, then wraps the block in a list of that kind. It does not
  make the block a `list-item`.
- `toggleMark` at a caret in non-empty text changes nothing. It does not
  consult and update the pending marks (see Findings). So toggling twice
  at a caret restores the state only because neither call does anything.
- `left` is a stored alignment value of its own, distinct from no
  alignment, since `textAlign` may hold `'left'`.

## Model

| member | source | states |
|---|---|---|
| Types.ParseKind | src/utils/types.ts:18 | exactly the eight kind names are accepted, each giving back the kind whose name it is |
| Types.ParseAlign | src/utils/types.ts:20 | exactly the four alignment names are accepted, each giving back the alignment whose name it is |
| Types.SetMark | src/utils/types.ts:8-11 | writing one boolean mark sets it to the given value (absent included) and keeps every other mark, `fontFamily` and `color` |
| Leaves.Apply | src/utils/types.ts:6-14 | a leaf property write changes only the written property; `fontFamily` and `color` are overwritten with the string, not toggled |
| Leaves.UpdateSliceChars | src/utils/editorUtils.ts:8-12 | setNodes with `split: true` on one block keeps its characters; those in the selected slice get the update and all others keep their marks |
| Leaves.UpdateSliceText | src/utils/editorUtils.ts:8-12 | setting leaf properties never changes a block's string |
| Leaves.DropCharsText | src/plugins/withShortcuts.ts:39 | deleting the first n characters of a block leaves exactly the rest of its string |
| Leaves.MarksAtRestyled | src/utils/editorUtils.ts:17 | after a restyle, the marks Editor.marks reads at a restyled character are the updated old marks |
| Leaves.MarksBeforeEmpty | src/utils/editorUtils.ts:17 | in an empty block, the caret's marks after a write at the caret are the updated old marks |
| Document.LinesSeq | src/utils/types.ts:17-21 | the block-by-block view has one line per text block, each with a non-empty header chain |
| Document.Edges | src/plugins/withShortcuts.ts:20 | a range's edges are its anchor and focus, ordered first before last |
| Document.Unhang | src/utils/editorUtils.ts:60 | unhangRange keeps the start and never moves the end past the selection's end, staying inside the document |
| Document.EditSeqLines | src/utils/editorUtils.ts:45 | setNodes on the text blocks in [lo, hi] of the tree changes exactly those blocks' lines and leaves every other line as it was |
| Document.EditSeqWellFormed | src/utils/editorUtils.ts:45 | setNodes keeps the document normalised: containers keep children, text blocks keep a leaf |
| Document.EditAllStrings | src/utils/editorUtils.ts:85-89 | writing a kind, an alignment or leaf properties keeps every block's string |
| Document.UnhangSame | src/utils/editorUtils.ts:60 | unhanging depends only on the blocks' strings, so it gives the same span before and after a transform that keeps them |
| Structure.UnwrapSeqLines | src/utils/editorUtils.ts:26-32 | unwrapNodes with `split: true` keeps every block, its leaves and its own header, removes at most one list ancestor from each, and clears every list from blocks that were under at most one |
| Structure.WrapSeqLines | src/utils/editorUtils.ts:47-50 | wrapNodes keeps every block, its leaves and its own header; the selected blocks gain the wrapper among their ancestors and other blocks gain it or stay as they were |
| Structure.WrapOneLines | src/plugins/withShortcuts.ts:57 | wrapping a single block inserts the wrapper directly above it and changes no other line |
| Structure.WrapDoc | src/utils/editorUtils.ts:47-50 | wrapNodes yields a normalised document in which every selected block grew the wrapper, all strings are kept, and a single block gets it as its new parent |
| Structure.GrewListCount | src/utils/editorUtils.ts:47-50 | a block that grew a list wrapper is under exactly one more list |
| Structure.Nest | src/plugins/withShortcuts.ts:57 | nesting inserts the wrapper as the block's direct parent and keeps its own header and leaves |
| Slate.SelectionMarks | src/utils/editorUtils.ts:17 | Editor.marks exists exactly when there is a selection, and pending marks take precedence |
| Slate.Unhung | src/utils/editorUtils.ts:60 | the range unhangRange returns has the unhung edges and lies in the document |
| Slate.Editor.constructor | src/plugins/withShortcuts.ts:5-6 | a fresh editor holds the given document and selection, no pending marks and no forwarded calls |
| Slate.Editor.Select | src/plugins/withShortcuts.ts:38 | select sets the selection, and drops the pending marks when the selection moves |
| Slate.Editor.Delete | src/plugins/withShortcuts.ts:39 | deleting a block prefix removes exactly those characters from that block, changes no other line, and collapses the selection at the block's start |
| Slate.Editor.SetBlocks | src/utils/editorUtils.ts:45 | setNodes writes a kind or an alignment into exactly the text blocks of the unhung selection and keeps every string; without a selection nothing changes |
| Slate.Editor.SetTexts | src/utils/editorUtils.ts:8-12 | setNodes with `split: true` restyles exactly the unhung selection's characters and selects the unhung range; a caret in non-empty text or no selection leaves everything as it was |
| Slate.Editor.UnwrapLists | src/utils/editorUtils.ts:26-32 | unwrapNodes lifts at most one list off each block, keeps strings and selection, and clears lists from blocks under at most one |
| Slate.Editor.Wrap | src/utils/editorUtils.ts:47-50 | wrapNodes puts the wrapper above every selected block, keeps strings and selection, and nests a single block directly |
| Slate.Editor.BaseInsertText | src/plugins/withShortcuts.ts:65 | the base insertText is handed the text and nothing else changes here |
| Slate.Editor.BaseDeleteBackward | src/plugins/withShortcuts.ts:91 | the base deleteBackward is handed the unit and nothing else changes here |
| EditorUtils.IsMarkActive | src/utils/editorUtils.ts:16-19 | a mark is active only with a selection; with pending marks, it is active exactly when they hold `true` for it |
| EditorUtils.IsBlockActive | src/utils/editorUtils.ts:54-67 | without a selection no kind is active |
| EditorUtils.IsTextAlignActive | src/utils/editorUtils.ts:93-108 | without a selection no alignment is active |
| EditorUtils.ToggleMark | src/utils/editorUtils.ts:5-13 | writes the mark as absent where it was active and as `true` otherwise, on exactly the selected characters; on a selection starting on a character, or a caret in an empty block, the mark's activity flips |
| EditorUtils.MarkWritten | src/utils/editorUtils.ts:8-12 | where Editor.marks reads a character the write reaches, it reads the written value afterwards |
| EditorUtils.EditAllRestyled | src/utils/editorUtils.ts:70-76 | a leaf write restyles exactly the span's characters, keeps their blocks' headers, and leaves every other block untouched |
| EditorUtils.ToggleBlock | src/utils/editorUtils.ts:22-51 | unwraps lists, writes paragraph, list-item or the kind into the selected blocks, and wraps a new list. An inactive kind becomes active. An active list on shallow blocks goes away. An active kind that is no list goes away unless a container of the selected blocks has it. Paragraph stays active. A new list leaves each block in exactly one list of that kind |
| EditorUtils.ToggleBlockLines | src/utils/editorUtils.ts:34-50 | the block-level consequences of unwrap, kind write and wrap: kinds written, an inactive kind activated, an active list or an active non-list kind cleared, paragraph kept active, a new list created |
| EditorUtils.KindCleared | src/utils/editorUtils.ts:35-45 | once the selected blocks are paragraphs, a kind that is no list and that no container of theirs carries is met by none of them |
| EditorUtils.KeptKind | src/utils/editorUtils.ts:26-32 | unwrapping lists removes only list headers, so every other kind on a block's path survives it |
| EditorUtils.KindRoundTrip | src/utils/editorUtils.ts:35-45 | turning paragraphs into a kind and toggling back to paragraph restores the blocks |
| EditorUtils.ToggleTextAlign | src/utils/editorUtils.ts:79-90 | without a selection nothing changes; otherwise the selected blocks get the alignment, or lose it when it was active; an inactive alignment becomes active and an active one goes away unless a container carries it |
| EditorUtils.AlignLines | src/utils/editorUtils.ts:85-89 | writing an alignment makes it present on the selected blocks, and clearing it removes it where no container has it |
| EditorUtils.AlignRoundTrip | src/utils/editorUtils.ts:85-89 | setting an alignment on unaligned blocks and clearing it restores them |
| EditorUtils.ToggleFontFamily | src/utils/editorUtils.ts:70-76 | the font family is overwritten on exactly the selected characters, with every other property kept |
| EditorUtils.ToggleFontColor | src/utils/editorUtils.ts:111-117 | the colour is overwritten on exactly the selected characters, with every other property kept |
| EditorUtils.CaretToggleIgnored | src/utils/editorUtils.ts:8-12 | with the caret inside "abc", the split write does not apply and bold stays off after toggling |
| EditorUtils.ToggleMarkCorrected | src/utils/editorUtils.ts:5-13 | at a caret the toggled mark goes into the pending marks, so every caret toggle flips the mark's activity |
| Shortcuts.Shortcut | src/plugins/withShortcuts.ts:24-33 | the table maps each marker to its kind, in both directions, and never yields paragraph or list-item |
| Shortcuts.ShortcutKeys | src/plugins/withShortcuts.ts:35 | a lookup succeeds exactly for the eight markers |
| Shortcuts.ShortcutNonEmpty | src/plugins/withShortcuts.ts:24-33 | every marker has one to three characters |
| Shortcuts.Converted | src/plugins/withShortcuts.ts:38-44 | a converted block keeps its ancestors, gets the marker's kind, and loses exactly the marker's characters |
| Shortcuts.Demoted | src/plugins/withShortcuts.ts:85 | a demoted block keeps its ancestors and leaves and becomes a paragraph |
| Shortcuts.InsertText | src/plugins/withShortcuts.ts:9-66 | a space after a marker at a caret deletes the marker, sets the kind and nests a list kind in a new list, leaving the caret at the block start; any other call is forwarded unchanged |
| Shortcuts.ShortcutLines | src/plugins/withShortcuts.ts:38-57 | the select, delete, set and wrap sequence changes exactly the caret's block, as Converted and Nest say |
| Shortcuts.DeleteBackward | src/plugins/withShortcuts.ts:69-92 | at the start of a non-paragraph block, the block becomes a paragraph with nothing deleted; otherwise the call is forwarded with its unit and nothing else changes |
| Shortcuts.BackspaceUndoesKind | src/plugins/withShortcuts.ts:37-44 | a heading or quote shortcut on a paragraph followed by a backspace gives back the paragraph, without its marker |
| Shortcuts.BackspaceKeepsList | src/plugins/withShortcuts.ts:46-58 | a list shortcut followed by a backspace leaves the block a paragraph inside one more list than before |
| Shortcuts.DemotedForwards | src/plugins/withShortcuts.ts:81-91 | a second backspace at the start of a demoted block is forwarded to the base editor |
| Shortcuts.LookupAsWritten | src/plugins/withShortcuts.ts:35 | indexing the object literal finds the markers' kinds, and also the inherited property names |
| Shortcuts.LookupAsWrittenKeys | src/plugins/withShortcuts.ts:35-37 | as written, the shortcut branch runs exactly for the markers and the inherited property names |
| Shortcuts.InheritedNameTriggers | src/plugins/withShortcuts.ts:35-37 | "toString" takes the branch as written but is no marker, and the corrected lookup gives no shortcut for it |

## Left out

- Points are a text-block index plus a character offset in the block's string, not Slate leaf paths. The choice between the two leaf-boundary positions of one offset is not modelled. Editor.marks reads the character before a caret and the first character of an expanded range.
- Editor.above's fallback to the root path `[]` is left out. In a normalised document, the caret always has a block above it.
- Slate.Editor.Delete models `Transforms.delete` only for the range the shortcut plugin deletes: from a block's start to a later point of the same block.
- The base `insertText` and `deleteBackward` are code outside this model. They are recorded in order in the editor's `forwarded` field, and their effect on the document is not modelled.
- Undo history, React rendering, DOM events, fonts, styles and Slate's normaliser are left out, along with the build files and the copies under `dist/`. So is the shipped `.d.ts` that omits `left` from `textAlign`.
- Structure.UnwrapSeqLines: `unwrapNodes` matches list containers only. A text block whose own kind is a list kind, as the shortcut creates, is not unwrapped by `toggleBlock` in the model. Slate would lift its leaves into its parent.
- Structure.WrapSeqLines: the list template's `list-item` child is dropped, as Slate's `wrapNodes` does, so the wrapper has the selected blocks as its only children.
- EditorUtils.ToggleBlock: that an active list kind goes away, and that a new list holds each block in exactly one list, is proved only for blocks under at most one list. Deeper nesting is lifted one level per toggle.
- ToggleBlockLines: that an active kind that is no list goes away is proved only when no container of the selected blocks has that kind. A container's kind is not changed by the block-level write, so it stays active in that case.
- EditorUtils.ToggleTextAlign: that an active alignment goes away is proved only when no container around the selected blocks carries it. A container's alignment is not cleared by the block-level write.
- EditorUtils.ToggleMark: the activity flip is stated for an expanded selection starting on a character and for a caret in an empty block without pending marks. At a caret in text the call does nothing (see Findings).
- Shortcuts.InsertText: the shortcut branch uses the corrected lookup (Shortcuts.Shortcut), which matches only the eight markers. The as-written lookup also matches the twelve names every object inherits, such as "toString" (Findings row 2). That branch is modelled only at the lookup level, by Shortcuts.LookupAsWritten and Shortcuts.LookupAsWrittenKeys, and not as an editor state change. So for such a word followed by a space, InsertText forwards the call. The code would instead delete the word and set the block's type to a function value.
- EditorUtils.ToggleMark: the format is one of the four boolean marks (`Types.Format`) that the toolbar passes. The code's parameter type, `keyof Omit<Text, 'text'>`, also admits `fontFamily` and `color`. For those, `toggleMark` would write `true` into a string property and `isMarkActive` would compare it with `true`. Those calls are not modelled.
- EditorUtils.IsMarkActive: restricted to the four boolean marks, as for EditorUtils.ToggleMark.
- EditorUtils.IsBlockActive: the contract states only the no-selection case. The query itself is written out as a predicate on the unhung span's ancestor chains.
- EditorUtils.IsTextAlignActive: the contract states only the no-selection case, as for IsBlockActive.
- The element `type` field holds one of the eight kinds by construction (`Types.BlockType`). Values outside the union are not representable.

## Findings

| source | as written | input that shows it | evidently intended | confidence | as-written member | corrected member |
|---|---|---|---|---|---|---|
| src/utils/editorUtils.ts:5-13 | `toggleMark` writes the mark with `setNodes(..., { split: true })`, which does nothing at a caret inside non-empty text | a paragraph "abc" with the caret after "a", then toggle bold: nothing changes and bold stays off | at a caret, add or remove the mark in the pending marks (as Editor.addMark and Editor.removeMark do), so the next typed text picks it up | not executed | EditorUtils.CaretToggleIgnored | EditorUtils.ToggleMarkCorrected |
| src/plugins/withShortcuts.ts:24-37 | `shortcuts[beforeText]` indexes a plain object literal, so the property names every object inherits are found too, and their values are truthy | a block holding "toString" with the caret at its end, then a space: the branch runs, deletes the word and sets the block's type to a function value | only the eight markers trigger a shortcut, for example through a `Map` or a `hasOwnProperty` check | not executed | Shortcuts.LookupAsWrittenKeys | Shortcuts.ShortcutKeys |
