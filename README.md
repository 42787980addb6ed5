# timber: logger state and emission pipeline

A Dafny model of the hand-written core of the `timber` Go logging package
(`timber.go`). timber prints one colourised line per message to standard
output. A message carries a severity level. Each logger holds a stack depth,
used to locate the caller, an optional prefix and a map of contextual keys.

The model has three modules:

- `Rendering` (rendering.dfy) models `getKeysString`. It renders the message
  keys and then the logger's own keys as `{ k: v, ... }`. It skips nil
  values. It gives `""` when nothing is left.
- `Format` (format.dfy) models the items `log` hands to `fmt.Println`. These
  are the level tag, the optional `[prefix]`, the caller location, the
  optional keys segment with its `|` separator, and the message.
- `Timber` (timber.dfy) models the state.
  - `Keys` is a class around a `map<string, Value>`, because a Go map is held
    by reference.
  - `Logger` is a class with `stackDepth`, `keys` and `prefix`.
  - `Global` is the singleton that holds the package variables: the minimum
    `level` and the `defaultLogger`. It also holds a ghost `output` sequence
    that stands for standard output.

Conventions:

- Levels are integers, as `type Level int` is in the package.
- The short names and colours generated per level form a `LevelTable` of
  three maps.
- A value under a key is `Nil` or `Val(text)`. `text` stands for its `%v`
  rendering.
- Go walks a map in an unspecified order. Every operation that walks a map
  therefore takes the walk as a sequence that lists each key once
  (`Enumerates`). The lemmas prove that the choice of walk only permutes the
  rendered entries.

Three behaviours of the code as written are worth stating up front:

- `With` does not copy the parent's key map. The child logger stores the
  parent's map (timber.go:134) and the incoming keys are written into it
  (timber.go:137-139). So the parent and every sibling see the new keys.
  `Logger.With` states this, and `SiblingsShareKeys` shows it.
- A level with no registered short name gets the tag `[]`. Go's map lookup
  yields the empty string, and no fallback to the level's name exists.
- There is one process-wide level and no per-logger level.

## Model

`Logger.GetPrefixString` (timber.go:71-75) and `Global.ShouldLog`
(timber.go:37-41) are plain reads with no contract of their own. `Emit` and
`GetLevel` state what they contribute.

| member | source | states |
|---|---|---|
| `Rendering.Entries` | timber.go:56-64 | walking a map renders at most one entry per key visited |
| `Rendering.EntriesAppend` | timber.go:56-64 | walking one key sequence after another renders the two renderings one after the other |
| `Rendering.EntriesCount` | timber.go:57-62 | a walk without repeated keys renders exactly one entry per visited key whose value is not nil |
| `Rendering.EntriesMember` | timber.go:57-62 | an entry is rendered iff some visited key holds a non-nil value rendering as `k: v` |
| `Rendering.EntriesPermutation` | timber.go:57 | walking a permutation of the keys renders a permutation of the entries |
| `Rendering.KeysOrderIrrelevant` | timber.go:56-64 | any two Go iteration orders of the message keys and logger keys give the same multiset of entries |
| `Rendering.AllEntriesCount` | timber.go:56-64 | the rendering has one entry per live message key plus one per live logger key, with no de-duplication of a key present in both maps |
| `Rendering.AllEntriesMember` | timber.go:56-64 | an entry is rendered iff it comes from a non-nil key of the message keys or of the logger's keys |
| `Rendering.KeysStringEmptyIff` | timber.go:65-67 | the keys segment is `""` iff neither map has a non-nil value |
| `Rendering.KeysStringFramed` | timber.go:68 | a non-empty keys segment starts with `{ ` and ends with ` }` |
| `Rendering.SingleKeyRendering` | timber.go:55-68 | one live key `k` with value `v` renders as `{ k: v }` |
| `Rendering.NilValueOmitted` | timber_test.go:22-27 | keys `things: stuff` and `otherThings: nil` render as `{ things: stuff }` in either iteration order |
| `Format.LevelTagPaint` | timber.go:85-96 | the tag is `[short]`; a background colour wins over a foreground colour, and an unconfigured level is plain |
| `Format.LineLayout` | timber.go:97-107 | a line is the tag, then `[prefix]` only if the prefix is non-empty, then the caller location exactly once, then the keys and `|` only if the keys segment is non-empty, then the message last |
| `Format.LineDeterminesParts` | timber.go:97-107 | two equal lines were built from the same prefix, caller depth, keys segment and message |
| `Timber.Keys.constructor` | timber.go:26 | `make(Keys)` gives an empty map |
| `Timber.AppendEntries` | timber.go:57-63 | the inner loop appends exactly the entries of the walk, skipping nil values |
| `Timber.Logger.New` | timber.go:30-35 | a new logger has depth 3, a fresh empty key map and no prefix |
| `Timber.Logger.Literal` | timber.go:132-136 | the derived logger stores the key map it is given, not a copy |
| `Timber.Logger.GetKeysString` | timber.go:52-69 | the loop's result is the keys segment of the message keys followed by the logger's keys |
| `Timber.Logger.Emit` | timber.go:77-109 | below the package level the output is unchanged; otherwise exactly one line is appended, assembled from the tag, prefix, caller location, keys segment and message |
| `Timber.Logger.SetDepth` | timber.go:113-116 | the depth becomes 3 plus the argument, the same logger is returned, and the keys and prefix are unchanged |
| `Timber.Logger.Log` | timber.go:120-122 | logs at the logger's own depth with no message keys |
| `Timber.Logger.LogEx` | gen/gen.go:151-153 | the generated keyed wrapper logs at the logger's own depth with the given message keys |
| `Timber.Logger.With` | timber.go:129-141 | the child is fresh and has the parent's depth and prefix; it shares the parent's key map, which becomes the old map updated by the incoming keys, with incoming values winning |
| `Timber.Logger.Prefix` | timber.go:144-149 | the prefix is overwritten, the same logger is returned, and depth and keys are unchanged |
| `Timber.Global.constructor` | timber.go:14-28 | the package starts at level 0 with a default logger that has depth 3, empty keys and no prefix |
| `Timber.Global.GetLevel` | timber.go:166-170 | the returned level is the threshold: it is printed and the level below it is not |
| `Timber.Global.SetLevel` | timber.go:158-162 | afterwards `GetLevel` returns the new level; the default logger and the output are unchanged |
| `Timber.Global.With` | timber.go:151-153 | derives from the default logger, whose own keys then include the incoming keys |
| `Timber.Global.Log` | timber.go:174-176 | logs through the default logger at its depth with no message keys |
| `Timber.SiblingsShareKeys` | timber.go:132-139 | two children of one parent share its key map; each sees the other's keys, and a later value for a key overwrites it for all of them |
| `Timber.SetLevelFilters` | timber_test.go:65-69 | after raising the level, a message below it prints nothing and one at or above it prints one line |
| `Timber.NewWithDebug` | timber_test.go:15-20 | a new logger with key `thing: stuff` prints tag, caller at depth 3, `{ thing: stuff }`, `|` and the message iff the level reaches the threshold |

## Left out

- Locking (`levelSync`, `keysLock`, `prefixLock`) and concurrent callers. Every operation is one sequential step.
- `CallerInfo`: its source is not part of this model. A line holds the symbolic item `Caller(depth)` for the location it would resolve, so the `"unknown:0"` fallback for a too-deep stack is not modelled.
- Terminal colours from `aurora`. They are abstract paints (`Plain`, `Fg`, `Bg`). The keys segment is modelled as plain text: its dim braces and white values are not.
- `fmt` formatting of arbitrary values. A key's value is its `%v` text. A message is the string that `fmt.Sprint(v...)` or `fmt.Sprintf` would produce.
- `fmt.Println`. Printing appends the line's item list to a ghost output. The spaces between items and the newline are not modelled.
- Go map iteration order is a parameter of each operation that walks a map.
- gen/gen.go: the code generator is I/O plus a templating library. Its per-level `Name` and `Namef` wrappers pass the message with no keys, as `Logger.Log` does. Its `NameEx` wrappers are modelled once, for any level, by `Logger.LogEx`. The package-level wrappers forward to the default logger, as `Global.Log` does.
- The generated `Logger` interface (gen/gen.go:102-136) declares a per-instance `SetLevel`/`GetLevel`. `timber.go` implements no such methods, so they are not modelled.
