/**
 * The exporter's entry points: routing each editor block to the converter of
 * its type, joining the fragments into one document, the configuration
 * defaults of the plugin object and the name of the downloaded file.
 */
module MarkdownParser {
  import opened Wrappers
  import opened Text
  import ListTypeParser

  /** An editor block: its `type` tag and its `data`, of an abstract shape D. */
  datatype Block<+D> = Block(blockType: string, data: D)

  /**
   * The per-type converters. Only the list converter is part of this model;
   * the others are given as functions. `listData` is the list converter's view
   * of a block's data (its `style` and `items`). The delimiter converter is
   * handed the whole block, every other converter only the block's data.
   */
  datatype Converters<-D> = Converters(
    header: D -> string,
    paragraph: D -> string,
    listData: D -> ListTypeParser.ListData,
    delimiter: Block<D> -> string,
    image: D -> string,
    quote: D -> string,
    checkbox: D -> string,
    code: D -> string,
    linkTool: D -> string,
    table: D -> string)

  /** The block types the exporter recognises, and every other tag. */
  datatype BlockType =
    | Header | Paragraph | List | Delimiter | Image | Quote
    | Checkbox | Code | Checklist | LinkTool | Table
    | Unknown(tag: string)

  const KnownTags: set<string> :=
    {"header", "paragraph", "list", "delimiter", "image", "quote", "checkbox", "code", "checklist", "linkTool", "table"}

  /** The block type a `type` tag names (tags compare exactly, case included). */
  function TypeOf(tag: string): BlockType
  {
    if tag == "header" then Header
    else if tag == "paragraph" then Paragraph
    else if tag == "list" then List
    else if tag == "delimiter" then Delimiter
    else if tag == "image" then Image
    else if tag == "quote" then Quote
    else if tag == "checkbox" then Checkbox
    else if tag == "code" then Code
    else if tag == "checklist" then Checklist
    else if tag == "linkTool" then LinkTool
    else if tag == "table" then Table
    else Unknown(tag)
  }

  /** The `type` tag of a block type. */
  function TagName(t: BlockType): string
  {
    match t
    case Header => "header"
    case Paragraph => "paragraph"
    case List => "list"
    case Delimiter => "delimiter"
    case Image => "image"
    case Quote => "quote"
    case Checkbox => "checkbox"
    case Code => "code"
    case Checklist => "checklist"
    case LinkTool => "linkTool"
    case Table => "table"
    case Unknown(tag) => tag
  }

  /** Classifying a tag loses nothing, and a tag is unknown exactly when it is not one of the eleven. */
  lemma TypeOfTag(tag: string)
    ensures TagName(TypeOf(tag)) == tag
    ensures TypeOf(tag).Unknown? <==> tag !in KnownTags
    ensures TypeOf(tag).Paragraph? <==> tag == "paragraph"
    ensures TypeOf(tag).Checkbox? <==> tag == "checkbox"
    ensures TypeOf(tag).Checklist? <==> tag == "checklist"
  {
  }

  /** The converters a block can be handed to. */
  datatype Converter =
    | HeaderConverter | ParagraphConverter | ListConverter | DelimiterConverter | ImageConverter
    | QuoteConverter | CheckboxConverter | CodeConverter | LinkToolConverter | TableConverter

  /**
   * The switch of parseToMarkdown. Its `default` label shares the paragraph
   * arm, so unknown tags go to the paragraph converter, while the labels
   * written after `default` still select their own converters.
   */
  function Route(t: BlockType): Converter
  {
    match t
    case Header => HeaderConverter
    case Paragraph | Unknown(_) => ParagraphConverter
    case List => ListConverter
    case Delimiter => DelimiterConverter
    case Image => ImageConverter
    case Quote => QuoteConverter
    case Checkbox | Checklist => CheckboxConverter
    case Code => CodeConverter
    case LinkTool => LinkToolConverter
    case Table => TableConverter
  }

  /** Tags that reach the paragraph converter. */
  predicate ParagraphLike(tag: string)
  {
    tag == "paragraph" || tag !in KnownTags
  }

  /**
   * Two tags reach the same converter exactly when they are equal, both
   * paragraph-like, or both among "checkbox" and "checklist".
   */
  lemma RouteSharing(a: string, b: string)
    ensures Route(TypeOf(a)) == Route(TypeOf(b)) <==>
            a == b || (ParagraphLike(a) && ParagraphLike(b)) || ({a, b} <= {"checkbox", "checklist"})
  {
    TypeOfTag(a);
    TypeOfTag(b);
    RouteArms(TypeOf(a), TypeOf(b));
    assert TypeOf(a) == TypeOf(b) <==> a == b;
  }

  /** Two block types reach the same converter exactly when they share an arm of the switch. */
  lemma RouteArms(x: BlockType, y: BlockType)
    ensures Route(x) == Route(y) <==>
            x == y || ((x.Paragraph? || x.Unknown?) && (y.Paragraph? || y.Unknown?))
            || ((x.Checkbox? || x.Checklist?) && (y.Checkbox? || y.Checklist?))
  {
  }

  /** A tag reaches the paragraph converter exactly when it is "paragraph" or not a known tag. */
  lemma RouteParagraph(tag: string)
    ensures Route(TypeOf(tag)) == ParagraphConverter <==> ParagraphLike(tag)
  {
    TypeOfTag(tag);
  }

  /** The Markdown fragment of one block. */
  function Fragment<D>(conv: Converters<D>, block: Block<D>): string
  {
    match Route(TypeOf(block.blockType))
    case HeaderConverter => conv.header(block.data)
    case ParagraphConverter => conv.paragraph(block.data)
    case ListConverter => ListTypeParser.ListToMarkdown(conv.listData(block.data))
    case DelimiterConverter => conv.delimiter(block)
    case ImageConverter => conv.image(block.data)
    case QuoteConverter => conv.quote(block.data)
    case CheckboxConverter => conv.checkbox(block.data)
    case CodeConverter => conv.code(block.data)
    case LinkToolConverter => conv.linkTool(block.data)
    case TableConverter => conv.table(block.data)
  }

  /** A block of an unknown type renders exactly as a paragraph block with the same data. */
  lemma UnknownAsParagraph<D>(conv: Converters<D>, tag: string, data: D)
    requires tag !in KnownTags
    ensures Fragment(conv, Block(tag, data)) == Fragment(conv, Block("paragraph", data))
    ensures Fragment(conv, Block(tag, data)) == conv.paragraph(data)
  {
  }

  /** A list block is rendered by the list converter, not by the paragraph fallback. */
  lemma ListBlockFragment<D>(conv: Converters<D>, data: D)
    ensures Fragment(conv, Block("list", data)) == ListTypeParser.ListToMarkdown(conv.listData(data))
  {
  }

  /** "checkbox" and "checklist" blocks with the same data render identically. */
  lemma ChecklistAsCheckbox<D>(conv: Converters<D>, data: D)
    ensures Fragment(conv, Block("checklist", data)) == Fragment(conv, Block("checkbox", data))
    ensures Fragment(conv, Block("checkbox", data)) == conv.checkbox(data)
  {
  }

  /** The delimiter converter is handed the block itself, tag included. */
  lemma DelimiterGetsBlock<D>(conv: Converters<D>, block: Block<D>)
    requires block.blockType == "delimiter"
    ensures Fragment(conv, block) == conv.delimiter(block)
  {
  }

  /** The fragments of the blocks, in block order (the `map` of parseToMarkdown). */
  function Fragments<D>(conv: Converters<D>, blocks: seq<Block<D>>): seq<string>
  {
    seq(|blocks|, i requires 0 <= i < |blocks| => Fragment(conv, blocks[i]))
  }

  /** parseToMarkdown: the fragments joined by newlines. */
  function ParseToMarkdown<D>(conv: Converters<D>, blocks: seq<Block<D>>): string
  {
    Join(Fragments(conv, blocks), "\n")
  }

  /**
   * parse: awaits parseToMarkdown and returns its text unchanged: no blocks
   * give "", and n >= 1 blocks give their fragments plus n - 1 newlines.
   */
  function Parse<D>(conv: Converters<D>, blocks: seq<Block<D>>): (md: string)
    ensures blocks == [] ==> md == ""
    ensures |blocks| >= 1 ==> |md| == TotalLength(Fragments(conv, blocks)) + |blocks| - 1
    ensures |blocks| >= 1 ==> Count(md, '\n') == TotalCount(Fragments(conv, blocks), '\n') + |blocks| - 1
  {
    if |blocks| >= 1 then
      ParseSeparators(conv, blocks);
      ParseToMarkdown(conv, blocks)
    else
      ParseToMarkdown(conv, blocks)
  }

  /** No blocks give the empty document; one block gives its fragment alone. */
  lemma ParseShort<D>(conv: Converters<D>, blocks: seq<Block<D>>)
    ensures blocks == [] ==> ParseToMarkdown(conv, blocks) == ""
    ensures |blocks| == 1 ==> ParseToMarkdown(conv, blocks) == Fragment(conv, blocks[0])
  {
  }

  /** The document of two non-empty runs of blocks is theirs with one newline between: nothing leaks across blocks. */
  lemma ParseAppend<D>(conv: Converters<D>, a: seq<Block<D>>, b: seq<Block<D>>)
    requires |a| >= 1 && |b| >= 1
    ensures ParseToMarkdown(conv, a + b) == ParseToMarkdown(conv, a) + "\n" + ParseToMarkdown(conv, b)
  {
    assert Fragments(conv, a + b) == Fragments(conv, a) + Fragments(conv, b);
    JoinAppend(Fragments(conv, a), Fragments(conv, b), "\n");
  }

  /** n >= 1 blocks give their fragments plus exactly n - 1 inserted newlines, in length and in newline count. */
  lemma ParseSeparators<D>(conv: Converters<D>, blocks: seq<Block<D>>)
    requires |blocks| >= 1
    ensures |ParseToMarkdown(conv, blocks)| == TotalLength(Fragments(conv, blocks)) + |blocks| - 1
    ensures Count(ParseToMarkdown(conv, blocks), '\n') == TotalCount(Fragments(conv, blocks), '\n') + |blocks| - 1
  {
    JoinLength(Fragments(conv, blocks), "\n");
    assert "\n" == ['\n'];
    JoinCount(Fragments(conv, blocks), '\n');
  }

  /** When no fragment contains a newline, splitting the document on newlines gives back the fragments in block order. */
  lemma ParseSplit<D>(conv: Converters<D>, blocks: seq<Block<D>>)
    requires |blocks| >= 1
    requires forall i :: 0 <= i < |blocks| ==> '\n' !in Fragment(conv, blocks[i])
    ensures Split(ParseToMarkdown(conv, blocks), '\n') == Fragments(conv, blocks)
  {
    assert "\n" == ['\n'];
    SplitJoin(Fragments(conv, blocks), '\n');
  }

  // ---- getTimeStamp ----

  /** The clock reading getTimeStamp formats; `month` counts from 0, as Date.getMonth does. */
  datatype DateTime = DateTime(day: nat, month: nat, year: nat, hours: nat, minutes: nat, seconds: nat)

  /** The template `_dd-mm-yyyy_hh-min-sec` of getTimeStamp. */
  function StampOf(dd: string, mm: string, yyyy: string, hh: string, min: string, sec: string): string
  {
    "_" + dd + "-" + mm + "-" + yyyy + "_" + hh + "-" + min + "-" + sec
  }

  /** getTimeStamp: `_DD-MM-YYYY_H-M-S`, day and 1-based month padded to two digits, the rest unpadded. */
  function TimeStamp(now: DateTime): string
  {
    StampOf(PadStart(NatToString(now.day), 2, '0'), PadStart(NatToString(now.month + 1), 2, '0'),
            NatToString(now.year), NatToString(now.hours), NatToString(now.minutes), NatToString(now.seconds))
  }

  /** Reads a stamp back: six numerals, grouped as `_D-M-Y_H-M-S`, the month 1-based. */
  function ParseTimeStamp(s: string): Option<DateTime>
  {
    var halves := Split(s, '_');
    if |halves| != 3 || halves[0] != "" then None
    else
      var date := Split(halves[1], '-');
      var time := Split(halves[2], '-');
      if |date| != 3 || |time| != 3 then None
      else if !(IsNumeral(date[0]) && IsNumeral(date[1]) && IsNumeral(date[2])) then None
      else if !(IsNumeral(time[0]) && IsNumeral(time[1]) && IsNumeral(time[2])) then None
      else if ParseNat(date[1]) == 0 then None
      else Some(DateTime(ParseNat(date[0]), ParseNat(date[1]) - 1, ParseNat(date[2]),
                         ParseNat(time[0]), ParseNat(time[1]), ParseNat(time[2])))
  }

  lemma NumeralHas(s: string, c: char)
    requires IsNumeral(s) && !IsDigit(c)
    ensures c !in s
  {
  }

  /**
   * The stamp is a leading "_", the date fields separated by "-", a "_", and
   * the time fields separated by "-": day and month zero-padded to two
   * digits, the month counted from 1, year, hours, minutes and seconds as
   * plain numerals.
   */
  lemma TimeStampFields(now: DateTime)
    ensures var halves := Split(TimeStamp(now), '_');
            |halves| == 3 && halves[0] == ""
            && Split(halves[1], '-') == [PadStart(NatToString(now.day), 2, '0'),
                                          PadStart(NatToString(now.month + 1), 2, '0'),
                                          NatToString(now.year)]
            && Split(halves[2], '-') == [NatToString(now.hours), NatToString(now.minutes), NatToString(now.seconds)]
  {
    var dd := PadStart(NatToString(now.day), 2, '0');
    var mm := PadStart(NatToString(now.month + 1), 2, '0');
    var yyyy := NatToString(now.year);
    var h, mi, s := NatToString(now.hours), NatToString(now.minutes), NatToString(now.seconds);
    ZeroPadded(NatToString(now.day), 2);
    ZeroPadded(NatToString(now.month + 1), 2);
    NumeralHas(dd, '_'); NumeralHas(dd, '-');
    NumeralHas(mm, '_'); NumeralHas(mm, '-');
    NumeralHas(yyyy, '_'); NumeralHas(yyyy, '-');
    NumeralHas(h, '_'); NumeralHas(h, '-');
    NumeralHas(mi, '_'); NumeralHas(mi, '-');
    NumeralHas(s, '_'); NumeralHas(s, '-');
    StampLayout(dd, mm, yyyy, h, mi, s);
  }

  /** The layout of the template, for any six fields free of "_" and "-". */
  lemma StampLayout(dd: string, mm: string, yyyy: string, hh: string, min: string, sec: string)
    requires '_' !in dd && '-' !in dd && '_' !in mm && '-' !in mm && '_' !in yyyy && '-' !in yyyy
    requires '_' !in hh && '-' !in hh && '_' !in min && '-' !in min && '_' !in sec && '-' !in sec
    ensures var halves := Split(StampOf(dd, mm, yyyy, hh, min, sec), '_');
            |halves| == 3 && halves[0] == ""
            && Split(halves[1], '-') == [dd, mm, yyyy] && Split(halves[2], '-') == [hh, min, sec]
  {
    var datePart := dd + ['-'] + mm + ['-'] + yyyy;
    var timePart := hh + ['-'] + min + ['-'] + sec;
    assert StampOf(dd, mm, yyyy, hh, min, sec) == "" + ['_'] + datePart + ['_'] + timePart;
    SplitThree("", datePart, timePart, '_');
    SplitThree(dd, mm, yyyy, '-');
    SplitThree(hh, min, sec, '-');
  }

  /** A stamp reads back as the clock reading it was made from. */
  lemma TimeStampRoundTrip(now: DateTime)
    ensures ParseTimeStamp(TimeStamp(now)) == Some(now)
  {
    TimeStampFields(now);
    ZeroPadded(NatToString(now.day), 2);
    ZeroPadded(NatToString(now.month + 1), 2);
    ParseNatToString(now.day);
    ParseNatToString(now.month + 1);
    ParseNatToString(now.year);
    ParseNatToString(now.hours);
    ParseNatToString(now.minutes);
    ParseNatToString(now.seconds);
  }

  /**
   * For a calendar date of a four-digit year the date fields of the stamp
   * are 2, 2 and 4 digits wide and the time fields 1 or 2 digits.
   */
  lemma TimeStampWidths(now: DateTime)
    requires 1 <= now.day <= 31 && now.month <= 11 && 1000 <= now.year <= 9999
    requires now.hours <= 23 && now.minutes <= 59 && now.seconds <= 59
    ensures |PadStart(NatToString(now.day), 2, '0')| == 2
    ensures |PadStart(NatToString(now.month + 1), 2, '0')| == 2
    ensures |NatToString(now.year)| == 4
    ensures 1 <= |NatToString(now.hours)| <= 2 && 1 <= |NatToString(now.minutes)| <= 2
    ensures 1 <= |NatToString(now.seconds)| <= 2
  {
    NumeralLength(now.hours, 2);
    NumeralLength(now.minutes, 2);
    NumeralLength(now.seconds, 2);
    NumeralLength(now.day, 2);
    NumeralLength(now.month + 1, 2);
    NumeralLength(now.year, 4);
  }

  // ---- the plugin object and the downloaded file's name ----

  /** JavaScript truthiness of an optional string property: present and not "". */
  predicate Truthy(v: Option<string>)
  {
    v.Some? && v.value != ""
  }

  /** `v || fallback` for an optional string property. */
  function OrDefault(v: Option<string>, fallback: string): string
  {
    if Truthy(v) then v.value else fallback
  }

  /** A property as a template literal prints it: an absent one prints as "undefined". */
  function Show(v: Option<string>): string
  {
    match v
    case Some(s) => s
    case None => "undefined"
  }

  /** Defaulting a second time changes nothing, so re-using a defaulted configuration keeps its names. */
  lemma OrDefaultIdempotent(v: Option<string>, fallback: string)
    requires fallback != ""
    ensures Truthy(Some(OrDefault(v, fallback)))
    ensures OrDefault(Some(OrDefault(v, fallback)), fallback) == OrDefault(v, fallback)
  {
  }

  /** The name handed to the file writer: base name, optional stamp, ".", extension. */
  function FileTarget(filename: string, stamp: string, extension: string): string
  {
    filename + stamp + "." + extension
  }

  /** Splits a file name at its last ".", into the part before and the extension after it. */
  function SplitExtension(name: string): Option<(string, string)>
  {
    if |name| == 0 then None
    else if name[|name| - 1] == '.' then Some((name[..|name| - 1], ""))
    else
      match SplitExtension(name[..|name| - 1])
      case None => None
      case Some((base, ext)) => Some((base, ext + [name[|name| - 1]]))
  }

  /** A target name splits back into the base name with its stamp and the extension, when the extension has no ".". */
  lemma {:induction false} FileTargetParts(filename: string, stamp: string, extension: string)
    requires '.' !in extension
    ensures SplitExtension(FileTarget(filename, stamp, extension)) == Some((filename + stamp, extension))
  {
    var name := FileTarget(filename, stamp, extension);
    if |extension| == 0 {
      assert name[..|name| - 1] == filename + stamp;
    } else {
      var shorter := extension[..|extension| - 1];
      assert name[..|name| - 1] == FileTarget(filename, stamp, shorter);
      FileTargetParts(filename, stamp, shorter);
      assert shorter + [extension[|extension| - 1]] == extension;
    }
  }

  /** The plugin's `config` object, which the plugin updates in place. */
  class Config {
    var filename: Option<string>
    var extension: Option<string>
    var timestamp: bool
    /** Whether a completion callback is configured. */
    var callback: bool

    constructor (filename: Option<string>, extension: Option<string>, timestamp: bool, callback: bool)
      ensures this.filename == filename && this.extension == extension
      ensures this.timestamp == timestamp && this.callback == callback
    {
      this.filename := filename;
      this.extension := extension;
      this.timestamp := timestamp;
      this.callback := callback;
    }
  }

  /** The export plugin. */
  class MarkdownParser {
    var config: Config

    /**
     * Keeps the given configuration object (or a fresh empty one) and writes
     * the defaults into it: a falsy filename becomes "download", a falsy
     * extension "md"; everything else is left as it was.
     */
    constructor (config: Config?)
      modifies config
      ensures config != null ==> this.config == config
      ensures config != null ==> this.config.timestamp == old(config.timestamp) && this.config.callback == old(config.callback)
      ensures config == null ==> fresh(this.config) && !this.config.timestamp && !this.config.callback
      ensures this.config.filename == Some(OrDefault(if config == null then None else old(config.filename), "download"))
      ensures this.config.extension == Some(OrDefault(if config == null then None else old(config.extension), "md"))
    {
      var c: Config;
      if config == null {
        c := new Config(None, None, false, false);
      } else {
        c := config;
      }
      this.config := c;
      new;
      c.filename := Some(OrDefault(c.filename, "download"));
      c.extension := Some(OrDefault(c.extension, "md"));
    }

    /**
     * download: the file name handed to the file writer for `content`, and the
     * argument the completion callback is called with, if one is configured.
     */
    method Download(content: string, now: DateTime) returns (target: string, callbackArg: Option<string>)
      ensures target == FileTarget(Show(config.filename), if config.timestamp then TimeStamp(now) else "", Show(config.extension))
      ensures callbackArg == if config.callback then Some(content) else None
    {
      var stamp := if config.timestamp then TimeStamp(now) else "";
      target := FileTarget(Show(config.filename), stamp, Show(config.extension));
      callbackArg := if config.callback then Some(content) else None;
    }
  }

  /** File names for a `notes`/`txt` configuration: "notes.txt", and the same with a stamp once `timestamp` is set on the shared config. */
  method NamedDownloadExample(now: DateTime)
  {
    var config := new Config(Some("notes"), Some("txt"), false, false);
    var parser := new MarkdownParser(config);
    var target, arg := parser.Download("# notes", now);
    assert target == "notes.txt";
    config.timestamp := true;
    target, arg := parser.Download("# notes", now);
    FileTargetParts("notes", TimeStamp(now), "txt");
    assert SplitExtension(target) == Some(("notes" + TimeStamp(now), "txt"));
  }

  /** Without a config, or with empty names, the file is "download.md". */
  method DefaultDownloadExample(now: DateTime)
  {
    var plain := new MarkdownParser(null);
    var target, arg := plain.Download("", now);
    assert target == "download.md" && arg == None;
    var blank := new Config(Some(""), Some(""), false, true);
    plain := new MarkdownParser(blank);
    target, arg := plain.Download("text", now);
    assert target == "download.md" && arg == Some("text");
  }
}
