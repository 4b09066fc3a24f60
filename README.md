# editorjs-markdown-parser, modelled in Dafny

The Editor.js export plugin turns the editor's ordered blocks into one
Markdown document and downloads it. This project models its conversion core
and proves properties about it:

- `ListTypeParser` (list_type_parser.dfy) models `src/BlockTypeParsers/ListTypeParser.js`.
  - `ListToMarkdown` is `parseListToMarkdown`. An `"ordered"` style gives `1. `, `2. `, … markers. Any other style, or a missing one, gives `- `. The lines are joined by newlines, with one newline before them and one after.
  - `MarkdownToList` is `parseMarkdownToList`. It keeps the source's three nested loops, which push every third-level `value` onto a growing sequence. It is proved equal to the flattening function `GroupValues`.
- `MarkdownParser` (markdown_parser.dfy) models `src/MarkdownParser.js`.
  - `Fragment` is the `switch` of `parseToMarkdown`. The tag is first classified into the closed type `BlockType`, which has an `Unknown(tag)` arm. `Route` then picks the converter. As in the source, `default` shares the paragraph arm, and the labels written after `default` keep their own converters.
  - `ParseToMarkdown` and `Parse` join the fragments with `"\n"`.
  - `TimeStamp` is `getTimeStamp`, with the clock reading passed in as a `DateTime`.
  - `FileTarget` is the file name that `download` builds.
  - The class `MarkdownParser` holds the plugin's `config` object. Its constructor writes the `filename`/`extension` defaults into that object in place. `Download` returns the name given to the file writer and the argument given to the completion callback.
- `Text` (text.dfy) holds the JavaScript string operations the code uses: `join`, `String(n)` and `padStart`. It also holds `Split` (on one character) and `ParseNat`, readers that the source does not have and that serve only to state properties of the output, and the facts about all of them used by the other modules.
- `Wrappers` (wrappers.dfy) holds `Option`. It stands for a property that may be `undefined`.

The source of the header, paragraph, delimiter, image, quote, checkbox, code,
linkTool and table converters is not part of this model. Each is a function-valued field of the
`Converters<D>` record, which is passed to the dispatcher as a parameter.
`D` stands for the abstract shape of a block's `data`. The field `listData` is the list
converter's view of that data (its `style` and `items`). The field `delimiter` has type
`Block<D> -> string`, because `parseDelimiterToMarkdown` is passed the whole block. Every
other converter has type `D -> string` and sees only `item.data`. Every
dispatcher property is proved for all converters.

`parseListToMarkdown` calls `blocks.items.map`, which throws when `items` is
absent, so `items` is a required field of `ListData`.

## Model

| member | source | states |
|---|---|---|
| `ListTypeParser.ListFramed` | src/BlockTypeParsers/ListTypeParser.js:6-10 | the list text always begins and ends with a newline; an empty list renders as exactly two newlines |
| `ListTypeParser.ListLines` | src/BlockTypeParsers/ListTypeParser.js:6-10 | the list text splits on newlines into an empty piece, then one line per item in item order (its marker followed by the item), then an empty piece, for a non-empty item list in which no item contains a newline |
| `ListTypeParser.OrderedLine` | src/BlockTypeParsers/ListTypeParser.js:8-10 | when no item contains a newline: with style "ordered", line i of the text is a numeral whose value is i + 1 (numbering starts at 1), then ". ", then item i unchanged |
| `ListTypeParser.UnorderedLine` | src/BlockTypeParsers/ListTypeParser.js:3-7 | when no item contains a newline: with style "unordered", any other style or no style, line i of the text is "- " followed by item i unchanged |
| `ListTypeParser.ListRoundTrip` | src/BlockTypeParsers/ListTypeParser.js:1-11 | reading the rendered text back line by line, with its markers stripped, gives exactly the original items in order, for every style and every item list without newlines |
| `ListTypeParser.OrderedExample` | src/BlockTypeParsers/ListTypeParser.js:8-10 | ordered ["a","b","c"] renders "\n1. a\n2. b\n3. c\n" |
| `ListTypeParser.UnorderedExample` | src/BlockTypeParsers/ListTypeParser.js:3-7 | ["x"] with no style renders "\n- x\n" |
| `ListTypeParser.MarkdownToList` | src/BlockTypeParsers/ListTypeParser.js:14-35 | the result has type "list", items equal to the in-order flattening of every third-level node's value, and style "ordered" exactly when the tree's `ordered` flag is set, "unordered" otherwise |
| `ListTypeParser.GroupValuesLength` | src/BlockTypeParsers/ListTypeParser.js:18-24 | the reverse converter yields exactly as many items as there are third-level nodes |
| `ListTypeParser.GroupValuesAppend` | src/BlockTypeParsers/ListTypeParser.js:18-24 | flattening keeps order: the items of two consecutive runs of groups are those of the first followed by those of the second |
| `ListTypeParser.GroupValuesMembers` | src/BlockTypeParsers/ListTypeParser.js:18-24 | a string is among the items if and only if some third-level node carries it as its value |
| `ListTypeParser.NoEntriesNoItems` | src/BlockTypeParsers/ListTypeParser.js:16-24 | the items are empty if and only if every list item has no children (empty children at any level contribute nothing) |
| `MarkdownParser.TypeOfTag` | src/MarkdownParser.js:19-43 | classifying a block's type tag loses nothing, and a tag is unknown exactly when it is none of the eleven tags the switch lists |
| `MarkdownParser.RouteSharing` | src/MarkdownParser.js:19-43 | two tags reach the same converter if and only if they are equal, both go to the paragraph arm, or both are among "checkbox" and "checklist" |
| `MarkdownParser.RouteParagraph` | src/MarkdownParser.js:22-24 | a tag reaches the paragraph converter if and only if it is "paragraph" or not one of the listed tags, so the labels after `default` are not captured by it |
| `MarkdownParser.UnknownAsParagraph` | src/MarkdownParser.js:22-24 | a block with an unlisted tag renders exactly as a paragraph block with the same data |
| `MarkdownParser.ListBlockFragment` | src/MarkdownParser.js:25-26 | a "list" block renders as the list converter applied to its data |
| `MarkdownParser.ChecklistAsCheckbox` | src/MarkdownParser.js:33-38 | "checkbox" and "checklist" blocks with the same data render identically, through the checkbox converter |
| `MarkdownParser.DelimiterGetsBlock` | src/MarkdownParser.js:27-28 | a "delimiter" block renders as the delimiter converter applied to the whole block, tag included |
| `MarkdownParser.ParseShort` | src/MarkdownParser.js:16-45 | no blocks render as the empty string; a single block renders as its fragment alone |
| `MarkdownParser.ParseAppend` | src/MarkdownParser.js:17-45 | the document of two non-empty runs of blocks is the first run's document, one newline, then the second's: fragments keep block order and nothing leaks across blocks |
| `MarkdownParser.ParseSeparators` | src/MarkdownParser.js:45 | n >= 1 blocks give a document whose length is the fragments' total length plus n - 1, and whose newline count is the fragments' newline count plus n - 1 |
| `MarkdownParser.ParseSplit` | src/MarkdownParser.js:17-45 | when no fragment contains a newline, splitting the document on newlines gives back the fragments in block order |
| `MarkdownParser.Parse` | src/MarkdownParser.js:59-62 | the document `parse` returns is "" for no blocks; for n >= 1 blocks its length is the fragments' total length plus n - 1 and its newline count the fragments' newline count plus n - 1 |
| `MarkdownParser.StampLayout` | src/MarkdownParser.js:56 | the stamp template is "_", the three date fields joined by "-", "_", and the three time fields joined by "-", and, for fields free of "_" and "-", splits back into those fields |
| `MarkdownParser.TimeStampFields` | src/MarkdownParser.js:48-57 | the stamp's fields are the day and the 1-based month zero-padded to two digits, then the year, hours, minutes and seconds as plain numerals |
| `MarkdownParser.TimeStampRoundTrip` | src/MarkdownParser.js:48-57 | reading a stamp back gives the clock reading it was made from (the month counted from 0 again) |
| `MarkdownParser.TimeStampWidths` | src/MarkdownParser.js:50-56 | for a calendar date with a four-digit year, the date fields are 2, 2 and 4 digits wide and the time fields 1 or 2 digits |
| `MarkdownParser.OrDefaultIdempotent` | src/MarkdownParser.js:79-80 | a defaulted name is truthy, and defaulting it again changes nothing |
| `MarkdownParser.FileTargetParts` | src/MarkdownParser.js:108-110 | the download name splits at its last "." into the base name followed by the optional stamp, and the extension, when the extension has no "." |
| `MarkdownParser.MarkdownParser.constructor` | src/MarkdownParser.js:75-81 | the plugin keeps the given config object, or a fresh empty one if none is given; a missing or empty filename becomes "download" and a missing or empty extension becomes "md", in that object; every other value is left unchanged |
| `MarkdownParser.MarkdownParser.Download` | src/MarkdownParser.js:107-114 | the file is named filename, then the stamp if `timestamp` is set, then ".", then extension (an absent property prints as "undefined"); the callback, if configured, receives the content |
| `Text.NatToString` | src/MarkdownParser.js:50-55 | `String(n)` is a non-empty run of decimal digits without a leading zero |
| `Text.ParseNatToString` | src/BlockTypeParsers/ListTypeParser.js:9 | the numeral written for a number reads back as that number |
| `Text.PadStart` | src/MarkdownParser.js:50-51 | `padStart` gives a string of the larger of the two lengths, ending in the original string and padded in front with the pad character |
| `Text.ZeroPadded` | src/MarkdownParser.js:50-51 | padding a numeral with zeros keeps it a numeral of the same value |

## Left out

- `render` (src/MarkdownParser.js:96-102) is left out. It creates a DOM element and awaits the host editor's `saver.save()`, and both are calls into the host. The model starts from the blocks that `save()` returns.
- The file write `fileDownloadHandler` and the callback call are left out. `Download` returns the file name and the callback argument instead.
- The wall-clock read `new Date()` is left out. `TimeStamp` takes the clock reading as a parameter.
- `toolbox`, `isReadOnlySupported` and `save` are left out. They are static plugin metadata with no logic.
- The plugin's `data` and `api` fields are left out. The constructor stores them, but no modelled operation reads them.
- The `async`/`await` wrappers of `parseToMarkdown` and `parse` are left out. The conversion runs to completion synchronously and is modelled as plain functions.
- The bodies of the header, paragraph, delimiter, image, checkbox, quote, code, linkTool and table converters are left out. Their source files are not part of this model, so they are parameters of the dispatcher.
- A block's `type` is always a string in the model. A non-string tag in the source falls to `default` like any unlisted string.
- `style` is an optional string. A non-string style in the source also falls to the unordered arm.
- List items are strings. Template-literal conversion of non-string items is not modelled.
- `ordered`, `timestamp` and the presence of `callback` are booleans. JavaScript truthiness of other values is not modelled.
- `filename` and `extension` are optional strings. Their falsy values are therefore `undefined` and `""`. Other falsy JavaScript values (`null`, `0`, `false`) behave like `undefined` in the source and are not separately modelled.
- Negative years from `getFullYear` are not modelled. They would print with a minus sign, and the clock fields are natural numbers.
- `MarkdownToList`: a first- or second-level node without `children` makes the source's `forEach` throw, and a third-level node without `value` (a formatted inline node that has `children` instead) pushes `undefined`, which later renders as "undefined"; the model's tree always has `children` at the first two levels and a string `value` at the third, so neither case is modelled.
- The source throws when a list block has no `items`. The model has no such error path, because `items` is a required field.
