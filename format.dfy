/**
 The items of one printed line, as `log` assembles them before handing them to
 `fmt.Println` (which prints them separated by spaces). Colours are kept as
 abstract paints rather than terminal escape codes; the caller location is kept
 as the stack depth it is resolved for.
 */
module Format {

  /** Severity levels are plain integers compared numerically. */
  type Level = int

  /** The colours the line uses itself, and any colour a level is configured with. */
  datatype Color = White | BrightBlack | Named(name: string)

  /** How an item is coloured: not at all, by a foreground colour, or by a background colour. */
  datatype Paint = Plain | Fg(color: Color) | Bg(color: Color)

  /** A printed item: some text with its paint, or the caller location `file:line` found `depth` frames up. */
  datatype Item = Text(paint: Paint, text: string) | Caller(depth: int)

  /** The generated per-level tables: short display names and optional colours. */
  datatype LevelTable = LevelTable(shortNames: map<Level, string>,
                                   foreground: map<Level, Color>,
                                   background: map<Level, Color>)

  /** A Go map lookup: the short name, or the empty string when none is registered. */
  function ShortName(t: LevelTable, lvl: Level): string
  {
    if lvl in t.shortNames then t.shortNames[lvl] else ""
  }

  /** The bracketed short name, painted by the background colour, else the foreground colour, else plain. */
  function LevelTag(t: LevelTable, lvl: Level): Item
  {
    var s := "[" + ShortName(t, lvl) + "]";
    if lvl in t.background then Text(Bg(t.background[lvl]), s)
    else if lvl in t.foreground then Text(Fg(t.foreground[lvl]), s)
    else Text(Plain, s)
  }

  /** `[prefix]` in white when the prefix is non-empty, nothing otherwise. */
  function PrefixItems(prefix: string): seq<Item>
  {
    if |prefix| > 0 then [Text(Fg(White), "[" + prefix + "]")] else []
  }

  /** The keys segment and a dim `|` separator when the segment is non-empty, nothing otherwise. */
  function KeysItems(keys: string): seq<Item>
  {
    if |keys| > 0 then [Text(Plain, keys), Text(Fg(BrightBlack), "|")] else []
  }

  /** The whole line for a message at `lvl`, in printing order. */
  function Line(t: LevelTable, lvl: Level, prefix: string, depth: int, keys: string, msg: string): seq<Item>
  {
    [LevelTag(t, lvl)] + PrefixItems(prefix) + [Caller(depth)] + KeysItems(keys) + [Text(Plain, msg)]
  }

  /** The level tag's text and which colour wins when both are configured. */
  lemma LevelTagPaint(t: LevelTable, lvl: Level)
    ensures LevelTag(t, lvl).Text? && LevelTag(t, lvl).text == "[" + ShortName(t, lvl) + "]"
    ensures lvl in t.background ==> LevelTag(t, lvl).paint == Bg(t.background[lvl])
    ensures lvl !in t.background && lvl in t.foreground ==> LevelTag(t, lvl).paint == Fg(t.foreground[lvl])
    ensures lvl !in t.background && lvl !in t.foreground ==> LevelTag(t, lvl).paint == Plain
  {
  }

  /**
   Where each part of the line sits: the tag first, then the prefix only if
   there is one, then the caller location (exactly once), then the keys and
   their separator only if the keys segment is non-empty, and the message last.
   */
  lemma LineLayout(t: LevelTable, lvl: Level, prefix: string, depth: int, keys: string, msg: string)
    ensures var line := Line(t, lvl, prefix, depth, keys, msg);
            var p := if prefix == "" then 0 else 1;
            var k := if keys == "" then 0 else 2;
            && |line| == 3 + p + k
            && line[0] == LevelTag(t, lvl)
            && (prefix != "" ==> line[1] == Text(Fg(White), "[" + prefix + "]"))
            && line[1 + p] == Caller(depth)
            && (forall i :: 0 <= i < |line| && line[i].Caller? ==> i == 1 + p)
            && (keys != "" ==> line[2 + p] == Text(Plain, keys) && line[3 + p] == Text(Fg(BrightBlack), "|"))
            && line[|line| - 1] == Text(Plain, msg)
  {
  }

  /**
   A printed line is unambiguous: it determines the prefix, the caller depth,
   the keys segment and the message it was built from.
   */
  lemma LineDeterminesParts(t: LevelTable, lvl1: Level, prefix1: string, depth1: int, keys1: string, msg1: string,
                            lvl2: Level, prefix2: string, depth2: int, keys2: string, msg2: string)
    requires Line(t, lvl1, prefix1, depth1, keys1, msg1) == Line(t, lvl2, prefix2, depth2, keys2, msg2)
    ensures prefix1 == prefix2 && depth1 == depth2 && keys1 == keys2 && msg1 == msg2
  {
    var line := Line(t, lvl1, prefix1, depth1, keys1, msg1);
    LineLayout(t, lvl1, prefix1, depth1, keys1, msg1);
    LineLayout(t, lvl2, prefix2, depth2, keys2, msg2);
    var p1, p2 := if prefix1 == "" then 0 else 1, if prefix2 == "" then 0 else 1;
    assert p1 == p2 by {
      assert line[1 + p1].Caller? && line[1 + p2].Caller?;
    }
    if prefix1 != "" {
      assert "[" + prefix1 + "]" == "[" + prefix2 + "]";
      assert prefix1 == ("[" + prefix1 + "]")[1..|prefix1| + 1];
    }
  }
}
