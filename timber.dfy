/**
 The logger state and the emission pipeline of package `timber`.

 `Keys` is a Go map, so every copy of a `Keys` value refers to the same
 storage: it is a class here, and a `Logger` holds a reference to one.
 The package variables (the minimum level, the default logger) live on the
 singleton `Global`, which also records every printed line in a ghost
 `output` sequence in place of standard output. Locks are left out: every
 operation is modelled as one sequential step.
 */
module Timber {
  import opened Rendering
  import opened Format

  /** Frames taken by the logger's own call chain (`defaultStackDepth`). */
  const DefaultStackDepth := 3

  /** A key map shared by reference between the loggers that hold it. */
  class Keys {
    var entries: map<string, Value>

    /** `make(Keys)`: an empty map. */
    constructor ()
      ensures entries == map[]
    {
      entries := map[];
    }
  }

  /** Appends the entries rendered while walking `m` in the order `o` (the inner loop of `getKeysString`). */
  method AppendEntries(acc: seq<string>, m: map<string, Value>, o: seq<string>) returns (r: seq<string>)
    requires Enumerates(o, m.Keys)
    ensures r == acc + Entries(m, o)
  {
    r := acc;
    var j := 0;
    while j < |o|
      invariant 0 <= j <= |o|
      invariant r == acc + Entries(m, o[..j])
    {
      var k := o[j];
      var v := m[k];
      assert o[..j + 1][..j] == o[..j];
      j := j + 1;
      if v == Nil {
        continue;
      }
      r := r + [Entry(k, v.text)];
    }
    assert o[..j] == o;
  }

  class Logger {
    var stackDepth: int
    var keys: Keys
    var prefix: string

    /** `New`: the default depth, a fresh empty key map and no prefix. */
    constructor New()
      ensures stackDepth == DefaultStackDepth && prefix == ""
      ensures fresh(keys) && keys.entries == map[]
    {
      stackDepth := DefaultStackDepth;
      keys := new Keys();
      prefix := "";
    }

    /** The struct literal `&logger{...}` built by `With`: it stores the key map it is given, not a copy. */
    constructor Literal(depth: int, shared: Keys, p: string)
      ensures stackDepth == depth && keys == shared && prefix == p
    {
      stackDepth := depth;
      keys := shared;
      prefix := p;
    }

    /**
     `getKeysString`: the message keys walked in the order `om`, then this
     logger's keys walked in the order `ol`, rendered as the keys segment.
     */
    method GetKeysString(m: map<string, Value>, om: seq<string>, ol: seq<string>) returns (s: string)
      requires Enumerates(om, m.Keys) && Enumerates(ol, keys.entries.Keys)
      ensures s == KeysString(m, om, keys.entries, ol)
    {
      var msg := AppendEntries([], m, om);
      msg := AppendEntries(msg, keys.entries, ol);
      assert msg == AllEntries(m, om, keys.entries, ol);
      if |msg| == 0 {
        return "";
      }
      s := "{ " + Join(msg, ", ") + " }";
    }

    /** `getPrefixString`. */
    function GetPrefixString(): string
      reads this
    {
      prefix
    }

    /**
     `log`: below the package level nothing happens; otherwise one line is
     printed, built from the level tag, the prefix, the caller location for
     `stack`, the keys segment and the message.
     */
    method Emit(g: Global, stack: int, lvl: Level, m: map<string, Value>, om: seq<string>, ol: seq<string>, msg: string)
      requires Enumerates(om, m.Keys) && Enumerates(ol, keys.entries.Keys)
      modifies g`output
      ensures g.output == if lvl >= g.level
                          then old(g.output) + [Line(g.table, lvl, prefix, stack, KeysString(m, om, keys.entries, ol), msg)]
                          else old(g.output)
    {
      if !g.ShouldLog(lvl) {
        return;
      }
      var k := GetKeysString(m, om, ol);
      var p := GetPrefixString();
      var s := "[" + ShortName(g.table, lvl) + "]";
      var tag: Item;
      if lvl in g.table.foreground {
        tag := Text(Fg(g.table.foreground[lvl]), s);
      } else {
        tag := Text(Plain, s);
      }
      if lvl in g.table.background {
        tag := Text(Bg(g.table.background[lvl]), s);
      }
      assert tag == LevelTag(g.table, lvl);
      var items := [tag];
      if |p| > 0 {
        items := items + [Text(Fg(White), "[" + p + "]")];
      }
      items := items + [Caller(stack)];
      if |k| > 0 {
        items := items + [Text(Plain, k), Text(Fg(BrightBlack), "|")];
      }
      items := items + [Text(Plain, msg)];
      assert items == Line(g.table, lvl, p, stack, k, msg);
      g.output := g.output + [items];
    }

    /** `SetDepth`: skip `depth` frames beyond the logger's own; returns the same logger. */
    method SetDepth(depth: int) returns (r: Logger)
      modifies this`stackDepth
      ensures r == this && stackDepth == DefaultStackDepth + depth
      ensures keys == old(keys) && keys.entries == old(keys.entries) && prefix == old(prefix)
    {
      stackDepth := DefaultStackDepth + depth;
      r := this;
    }

    /** `Log`: a message at `lvl` with no message keys, at this logger's depth. */
    method Log(g: Global, lvl: Level, msg: string, ol: seq<string>)
      requires Enumerates(ol, keys.entries.Keys)
      modifies g`output
      ensures g.output == if lvl >= g.level
                          then old(g.output) + [Line(g.table, lvl, prefix, stackDepth, KeysString(map[], [], keys.entries, ol), msg)]
                          else old(g.output)
    {
      Emit(g, stackDepth, lvl, map[], [], ol, msg);
    }

    /** The generated `<Level>Ex` wrappers, for any level: a message with message keys, at this logger's depth. */
    method LogEx(g: Global, lvl: Level, m: map<string, Value>, om: seq<string>, ol: seq<string>, msg: string)
      requires Enumerates(om, m.Keys) && Enumerates(ol, keys.entries.Keys)
      modifies g`output
      ensures g.output == if lvl >= g.level
                          then old(g.output) + [Line(g.table, lvl, prefix, stackDepth, KeysString(m, om, keys.entries, ol), msg)]
                          else old(g.output)
    {
      Emit(g, stackDepth, lvl, m, om, ol, msg);
    }

    /**
     `With`: a new logger with this logger's depth and prefix that holds THIS
     logger's key map, into which the incoming keys are then written. The
     incoming value wins on a shared key, every other key keeps its value, and
     this logger sees the new keys too.
     */
    method With(incoming: map<string, Value>) returns (child: Logger)
      modifies keys
      ensures fresh(child)
      ensures child.keys == keys && child.stackDepth == stackDepth && child.prefix == prefix
      ensures keys.entries == old(keys.entries) + incoming
    {
      child := new Logger.Literal(stackDepth, keys, prefix);
      ghost var before := keys.entries;
      var todo := incoming.Keys;
      while todo != {}
        invariant todo <= incoming.Keys
        invariant child.keys == keys && child.stackDepth == stackDepth && child.prefix == prefix
        invariant keys.entries.Keys == before.Keys + (incoming.Keys - todo)
        invariant forall k :: k in incoming.Keys - todo ==> keys.entries[k] == incoming[k]
        invariant forall k :: k in before && k !in incoming.Keys - todo ==> keys.entries[k] == before[k]
        decreases todo
      {
        var k :| k in todo;
        child.keys.entries := child.keys.entries[k := incoming[k]];
        todo := todo - {k};
      }
    }

    /** `Prefix`: overwrite the prefix; returns the same logger. */
    method Prefix(p: string) returns (r: Logger)
      modifies this`prefix
      ensures r == this && prefix == p
      ensures stackDepth == old(stackDepth) && keys == old(keys) && keys.entries == old(keys.entries)
    {
      prefix := p;
      r := this;
    }
  }

  /** The package-level state: the minimum level, the default logger, and what has been printed. */
  class Global {
    var level: Level
    var defaultLogger: Logger
    ghost var output: seq<seq<Item>>
    const table: LevelTable

    /** The package's initial state: level 0 and a default logger like `New` gives. */
    constructor (table: LevelTable)
      ensures this.table == table && level == 0 && output == []
      ensures fresh(defaultLogger) && fresh(defaultLogger.keys)
      ensures defaultLogger.stackDepth == DefaultStackDepth && defaultLogger.keys.entries == map[] && defaultLogger.prefix == ""
    {
      this.table := table;
      level := 0;
      defaultLogger := new Logger.New();
      output := [];
    }

    /** `shouldLog`. */
    predicate ShouldLog(lvl: Level)
      reads this
    {
      lvl >= level
    }

    /** `GetLevel`: the threshold, the lowest level that is printed. */
    function GetLevel(): (r: Level)
      reads this
      ensures ShouldLog(r) && !ShouldLog(r - 1)
    {
      level
    }

    /** `SetLevel`: changes the threshold and nothing else. */
    method SetLevel(lvl: Level)
      modifies this`level
      ensures GetLevel() == lvl
      ensures defaultLogger == old(defaultLogger) && output == old(output)
    {
      level := lvl;
    }

    /** The package-level `With`: derives from the default logger, so the default logger's keys change too. */
    method With(incoming: map<string, Value>) returns (child: Logger)
      modifies defaultLogger.keys
      ensures fresh(child)
      ensures child.keys == defaultLogger.keys
      ensures child.stackDepth == defaultLogger.stackDepth && child.prefix == defaultLogger.prefix
      ensures defaultLogger.keys.entries == old(defaultLogger.keys.entries) + incoming
    {
      child := defaultLogger.With(incoming);
    }

    /** The package-level `Log`: the default logger's `Log`. */
    method Log(lvl: Level, msg: string, ol: seq<string>)
      requires Enumerates(ol, defaultLogger.keys.entries.Keys)
      modifies this`output
      ensures output == if lvl >= level
                        then old(output) + [Line(table, lvl, defaultLogger.prefix, defaultLogger.stackDepth,
                                                 KeysString(map[], [], defaultLogger.keys.entries, ol), msg)]
                        else old(output)
    {
      defaultLogger.Log(this, lvl, msg, ol);
    }
  }

  /**
   Two loggers derived from one parent share its key map: each sees the
   other's keys, and so does the parent. A later `With` on a shared key
   overwrites the earlier value for all of them.
   */
  method SiblingsShareKeys(parent: Logger) returns (a: Logger, b: Logger)
    modifies parent.keys
    ensures a.keys == parent.keys && b.keys == parent.keys
    ensures "a" in parent.keys.entries && "a" in b.keys.entries
    ensures "b" in parent.keys.entries && "b" in a.keys.entries
    ensures parent.keys.entries["a"] == Val("2")
  {
    a := parent.With(map["a" := Val("1")]);
    b := parent.With(map["a" := Val("2"), "b" := Val("2")]);
  }

  /**
   Raising the threshold to `info` suppresses a message at `debug` below it and
   prints one at `warning` at or above it.
   */
  method SetLevelFilters(g: Global, debug: Level, info: Level, warning: Level, ol: seq<string>)
    requires debug < info <= warning
    requires Enumerates(ol, g.defaultLogger.keys.entries.Keys)
    modifies g`level, g`output
    ensures g.level == info
    ensures g.output == old(g.output) + [Line(g.table, warning, g.defaultLogger.prefix, g.defaultLogger.stackDepth,
                                              KeysString(map[], [], g.defaultLogger.keys.entries, ol), "test")]
  {
    g.SetLevel(info);
    g.Log(debug, "test", ol);
    g.Log(warning, "test", ol);
  }

  /**
   A new logger given the key `thing` and asked for a message at `debug`:
   printed as tag, caller location at the default depth, `{ thing: stuff }`,
   the separator and the message when `debug` reaches the threshold, and
   not printed otherwise.
   */
  method NewWithDebug(g: Global, debug: Level) returns (l: Logger)
    modifies g`output
    ensures fresh(l)
    ensures g.output == if debug >= g.level
                        then old(g.output) + [[LevelTag(g.table, debug), Caller(DefaultStackDepth),
                                               Text(Plain, "{ thing: stuff }"), Text(Fg(BrightBlack), "|"),
                                               Text(Plain, "test")]]
                        else old(g.output)
  {
    var root := new Logger.New();
    l := root.With(map["thing" := Val("stuff")]);
    assert l.keys.entries == map["thing" := Val("stuff")];
    assert Enumerates(["thing"], l.keys.entries.Keys);
    SingleKeyRendering("thing", "stuff");
    assert "{ " + "thing" + ": " + "stuff" + " }" == "{ thing: stuff }";
    l.Log(g, debug, "test", ["thing"]);
    assert Line(g.table, debug, "", DefaultStackDepth, "{ thing: stuff }", "test")
        == [LevelTag(g.table, debug), Caller(DefaultStackDepth), Text(Plain, "{ thing: stuff }"),
            Text(Fg(BrightBlack), "|"), Text(Plain, "test")];
  }
}
