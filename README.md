# ns_zombies event parsing, modelled in Dafny

ns_zombies reads the happenings feed of a NationStates zombie event. Each
happening is a record with an `id`, a `timestamp` and a line of `text`. The
program turns every line it recognises into a typed event, `ZEvent`. The
model covers the core of that step, `src/event.rs`:

- **Events** (`events.dfy`) has the event types Cure, Zombie, Kill and
  Move, and the `ZEvent` record.
  - Equality and ordering are written out by hand. They follow the derived
    order: variant first, then fields in order, then strings
    lexicographically.
  - The `id` field takes no part in equality and ordering (the `educe`
    ignore attributes).
  - The order is proved to be a total order that agrees with equality.
- **Lexical** (`lexical.dfy`) has the character classes of the four
  patterns: `[a-z0-9_\-]`, `[a-zA-Z]`, `[IV]` and `[\d,]`.
  - Unicode `\d` is covered for every decimal-digit block of the Basic
    Multilingual Plane.
  - It also has a greedy run matcher (`Span`) and a literal-prefix matcher
    (`Lit`), with soundness and uniqueness lemmas.
- **Grammars** (`grammars.dfy`) has one hand-written matcher per pattern:
  CURE, ZOMBIE, KILL and MOVE.
  - Each matcher returns the typed segments of a match. It comes with a
    rendering function from segments back to text.
  - Soundness: a match renders back to the text. Completeness: every
    well-formed rendering is matched, with exactly its segments.
  - The named captures the regex crate would report are a map from group
    name to text.
  - CURE's two top-level alternatives are modelled as written. Its second
    alternative has no `from` group, and the `(p<restore>` group is a
    literal, so no capture is ever named `restore`.
- **Quantity** (`quantity.dfy`) models the reading of the number affected:
  `split(',')`, `collect`, then `parse::<usize>()`.
  - The parse models Rust's `usize` parse, explicitly bounded at 2^64 − 1,
    with its `Empty`, `InvalidDigit` and `PosOverflow` errors.
  - It also has a thousands-separated numeral writer. Its round trip with
    the reader is proved.
- **Parser** (`parser.dfy`) is `ZEvent::from_event`. It tries the four
  patterns in order and extracts the fields.
  - Every place where the source panics returns `Err`: `c[name]` on a group
    that took no part in the match, an unknown Roman numeral, and `unwrap`
    of a failed integer parse.
  - It proves round trips for every event kind and shows that each fatal
    path can be reached.
  - It proves that the outcome depends on the text and timestamp but not on
    the id.
- **FeedLines** (`feedlines.dfy`) parses concrete feed lines of the Kill
  and Move kinds from end to end.
- **Results** (`results.dfy`) holds the `Option` and `Result` wrappers.

The happening record `Event { id, timestamp, text }` of
`src/happenings.rs:4-9` is the input type: `Events.Event`.

Two behaviours of the code are modelled as written:

- `restored` is never true. In CURE the restoring clause is a separate
  top-level alternative (`src/event.rs:37-38`), and its group is spelled
  `(p<restore>` instead of `(?P<restore>`, so no group named `restore`
  exists. A line that ends in the clause without a Cure opening matches
  only that alternative, and `c["from"]` panics
  (`Parser.RestoreTailAlone`).
- The `s => panic!` arm at `src/event.rs:70` is reachable. The pattern's
  `[IV]{1,3}` admits `VI`, `IIV`, `VV` and others, which the numeral match
  rejects (`Parser.CureNumeralVI`).

## Model

| member | source | states |
|---|---|---|
| Lexical.Span | src/event.rs:36-47 | The greedy run of a character class at the front of a text: run and rest rejoin to the text, every run character is in the class, and the rest does not start with one. |
| Lexical.SpanOf | src/event.rs:36-47 | A run of the class, followed by text that cannot extend it, is split exactly there. So each `*` segment of a pattern has one possible extent. |
| Lexical.Lit | src/event.rs:36-47 | A literal piece of a pattern matches exactly when the text starts with it, and leaves the remainder. |
| Lexical.LitsClash | src/event.rs:36-47 | Two literals that differ at a common position never both begin the same text. |
| Lexical.EndingsClash | src/event.rs:37-47 | Two endings that differ at a common distance from the end never both end the same text. |
| Quantity.StripCommas | src/event.rs:59-61 | `split(',').collect::<String>()` leaves no comma, never lengthens the text, and is empty exactly when the text is nothing but commas. |
| Quantity.StripCommasAppend | src/event.rs:59-61 | Removing commas distributes over concatenation. |
| Quantity.StripCommasNoComma | src/event.rs:59-61 | Text without commas is left unchanged. |
| Quantity.ParseUsize | src/event.rs:62-63 | `parse::<usize>()` succeeds exactly on non-empty text that is not a lone `+` and is ASCII digits after an optional `+`, with value at most 2^64 − 1. The result is the value of those digits. It fails with `Empty` exactly on empty text. |
| Quantity.ParseQuantity | src/event.rs:59-63 | The strip-commas-then-parse chain succeeds exactly when the comma-free text is a `usize` numeral, with the value of its digits. It fails with `Empty` exactly when the text is nothing but commas. |
| Quantity.WithThousandsDigits | src/event.rs:59-62 | Removing the commas from a thousands-separated numeral leaves the plain decimal digits of the number. |
| Quantity.QuantityRoundTrip | src/event.rs:59-63 | Every number up to 2^64 − 1, written with thousands commas, lies in `[\d,]*` and reads back as itself. |
| Quantity.QuantityOverflow | src/event.rs:59-63 | A number beyond 2^64 − 1, written the same way, still matches `[\d,]*`, and its read fails with `PosOverflow`. |
| Events.CompareString | src/event.rs:25-31 | The derived order of `String` fields: a proper prefix sorts before every longer string that extends it, and every such string sorts after it. |
| Events.CompareStringFirstDifference | src/event.rs:25-31 | Two strings that agree on their first i characters are ordered by their i-th code point, the smaller first. |
| Events.CompareStringEqual | src/event.rs:25-31 | The string order reports Equal exactly for equal strings. |
| Events.CompareStringFlip | src/event.rs:25-31 | Swapping the arguments of the string order swaps Less and Greater. |
| Events.CompareStringTransitive | src/event.rs:25-31 | The string order is transitive. |
| Events.CompareBool | src/event.rs:8-13 | The derived order of `bool` fields: equal values are Equal, and `false` sorts before `true`. |
| Events.CompareEventType | src/event.rs:4-23 | The derived `Ord` of EventType. Different variants are ordered by declaration order (Zombie, Cure, Kill, Move), whatever their fields. Within one variant, the first field that differs in declaration order decides: Zombie by grade, converted, affected; Cure by level, restored, affected; Kill by level, affected; Move by nation. |
| Events.CompareEventTypeEqual | src/event.rs:4-23 | The derived `Ord` of EventType reports Equal exactly when the derived `Eq` holds. |
| Events.CompareEventTypeFlip | src/event.rs:4-23 | The EventType order is antisymmetric. |
| Events.CompareEventTypeTransitive | src/event.rs:4-23 | The EventType order is transitive. |
| Events.CompareZEvent | src/event.rs:24-33 | The educe `Ord` of ZEvent sorts by timestamp first. On equal timestamps `from` decides, then `to`, then the event payload. The id is never consulted. |
| Events.SameEvent | src/event.rs:24-33 | The `PartialEq` of ZEvent holds exactly when the two events are identical once their ids are made the same. |
| Events.CompareZEventEqual | src/event.rs:24-33 | Two ZEvents compare Equal exactly when timestamp, from, to and event agree. The id is not consulted. |
| Events.CompareZEventFlip | src/event.rs:24-33 | The ZEvent order is antisymmetric. |
| Events.CompareZEventTransitive | src/event.rs:24-33 | The ZEvent order is transitive. |
| Events.IdIgnored | src/event.rs:27-28 | Replacing a ZEvent's id leaves it equal to the original, and it compares against every other event exactly as before. |
| Grammars.Head | src/event.rs:36-47 | The common opening `^@@(?P<to>[a-z0-9_\-]*)`: present exactly when the text starts with `@@`. It then yields the maximal actor-class run after `@@` (the `to` or `nation` group) and the rest of the text. |
| Grammars.MatchTally | src/event.rs:37-45 | The shared tail `from @@actor@@, <verb> <quantity> million …` is matched only with an actor-class source and a `[\d,]`-class quantity, and renders back to the text. |
| Grammars.TallyComplete | src/event.rs:37-45 | Every well-formed tail is matched, with exactly its source, quantity and remainder. |
| Grammars.MatchCure | src/event.rs:36-37 | A match of CURE's first alternative has a target in `[a-z0-9_\-]*`, a numeral of one to three `I`/`V`, a kind in `[a-zA-Z]*`, a source and a quantity in their classes. The sentence it renders is the text. |
| Grammars.CureComplete | src/event.rs:36-37 | Every sentence of that form is matched, with exactly its segments, whatever follows "infected" (the alternation leaves that branch unanchored at the end). |
| Grammars.CureCaptures | src/event.rs:35-38 | CURE matches exactly when the first alternative matches or the text ends with the restoring clause. No `restore` group is ever reported. `from` is missing exactly when only the second alternative matches. On a first-alternative match the groups hold its segments. |
| Grammars.MatchZombie | src/event.rs:40-42 | A ZOMBIE match has its segments in their classes and one of the two endings. The sentence it renders is the text. |
| Grammars.ZombieComplete | src/event.rs:40-42 | Every ZOMBIE sentence, with either ending, is matched with exactly its segments. |
| Grammars.ZombieCaptures | src/event.rs:40-43 | ZOMBIE matches exactly when the typed matcher does. `convert` takes part exactly when the converting ending was used, and the groups hold the segments. |
| Grammars.KillLevel | src/event.rs:44 | `[1-5]` takes one character exactly when the text starts with a digit from 1 to 5. |
| Grammars.MatchKill | src/event.rs:44-45 | A KILL match has a level digit from 1 to 5, a squad name in `[a-zA-Z]*`, and actors and quantity in their classes. Nothing follows "infected.". The sentence it renders is the text. |
| Grammars.KillComplete | src/event.rs:44-45 | Every KILL sentence is matched with exactly its segments. |
| Grammars.KillCaptures | src/event.rs:44-45 | KILL matches exactly when the typed matcher does, and the groups hold the segments. Level is the one-character text of the digit. |
| Grammars.MatchMove | src/event.rs:46-47 | A MOVE match has nation and both regions in `[a-z0-9_\-]*`. The sentence it renders is the text. |
| Grammars.MoveComplete | src/event.rs:46-47 | Every MOVE sentence is matched with exactly its nation and regions. |
| Grammars.MoveCaptures | src/event.rs:46-47 | MOVE matches exactly when the typed matcher does, and the groups hold nation, from and to. |
| Grammars.ZombieTextEnding | src/event.rs:42 | A ZOMBIE sentence ends with the ending its converted flag selects. |
| Grammars.KillTextEnding | src/event.rs:45 | A KILL sentence ends with " million infected.". |
| Grammars.MoveTextEnding | src/event.rs:47 | A MOVE sentence ends with "%%.". |
| Grammars.ZombieNotRestore | src/event.rs:37-42 | No ZOMBIE sentence ends with CURE's restoring clause. |
| Grammars.KillNotRestore | src/event.rs:37-45 | No KILL sentence ends with CURE's restoring clause. |
| Grammars.MoveNotRestore | src/event.rs:37-47 | No MOVE sentence ends with CURE's restoring clause. |
| Grammars.GrammarsExclusive | src/event.rs:35-47 | No text is accepted by two of the four patterns. So the order of the tests in `from_event` only decides between a match and a fall-through. |
| Parser.Integer | src/event.rs:62-63 | `.parse::<usize>().unwrap()` succeeds exactly on `usize` numerals (non-empty, optional `+`, ASCII digits, at most 2^64 − 1), with the value of the digits. Otherwise it fails with an integer error of the parse's kind, `Empty` exactly on empty text. |
| Parser.Affected | src/event.rs:59-63 | The affected count is read exactly when the comma-free text is a `usize` numeral, and is the value of its digits. Otherwise it fails with an integer error, `Empty` exactly when the text is nothing but commas. |
| Parser.CureLevel | src/event.rs:64-71 | A numeral is read as a level from 1 to 5 whose Roman numeral it is. Any other numeral fails, naming it. |
| Parser.CureLevelRoman | src/event.rs:64-69 | Each level from 1 to 5 is read back from its numeral, so the mapping is exact. |
| Parser.SingleDigit | src/event.rs:101 | Parsing a single ASCII digit yields its value. |
| Parser.CureEvent | src/event.rs:56-77 | On a first-alternative match the CURE arm succeeds exactly when the count parses and the numeral is I to V. A result is a Cure with the captured actors, level and count, and `restored` false. A count that does not parse is reported before the numeral is looked at, with the count's own error. It fails on a missing `from` exactly when only the restoring alternative matched. An invalid-numeral failure names the captured numeral. |
| Parser.ZombieEvent | src/event.rs:78-92 | The ZOMBIE arm succeeds exactly when the count parses, yielding a Zombie with the captured actors, grade, count and converted flag. Otherwise it fails with the count's error. |
| Parser.KillEvent | src/event.rs:93-102 | The KILL arm succeeds exactly when the count parses, yielding a Kill with the captured actors, level digit and count. Otherwise it fails with the count's error. |
| Parser.MoveEvent | src/event.rs:103-108 | The MOVE arm yields a Move with the nation and the two regions. |
| Parser.FromEvent | src/event.rs:50-119 | `from_event` returns no event exactly when no pattern matches. For the first pattern that matches, it succeeds exactly when that line's count parses and, for CURE, its numeral is I to V; a MOVE line always succeeds. A failing CURE, ZOMBIE or KILL count is reported with the count's own error, and for CURE before the numeral is checked. A parsed event keeps the id and timestamp and carries the fields of that pattern. It fails on a missing `from` exactly when only CURE's restoring alternative matches. An invalid-numeral failure names the captured numeral. |
| Parser.KillRoundTrip | src/event.rs:93-102 | A Kill sentence built from any target, level 1 to 5, squad, source and count up to 2^64 − 1 parses to exactly that Kill event. |
| Parser.ZombieRoundTrip | src/event.rs:78-92 | A Zombie sentence built from any target, grade, source, count and either ending parses to exactly that Zombie event. |
| Parser.CureRoundTrip | src/event.rs:56-77 | A Cure sentence built from any target, level 1 to 5, kind, source and count, followed by any text, parses to that Cure event with `restored` false. |
| Parser.MoveRoundTrip | src/event.rs:103-108 | A Move sentence built from any nation and regions parses to exactly that Move event. |
| Parser.CureBadNumeral | src/event.rs:64-70 | A Cure sentence whose count parses but whose numeral is not I to V panics with that numeral. |
| Parser.CureNumeralVI | src/event.rs:36-70 | The numeral `VI` is admitted by CURE and then rejected, so the panic can be reached. |
| Parser.RestoreTailAlone | src/event.rs:37-57 | Text that ends with the restoring clause and does not start with `@` panics at `c["from"]`. |
| Parser.KillBadQuantity | src/event.rs:96-100 | A Kill sentence whose count does not parse panics with the parse's error kind. |
| Parser.KillEmptyQuantity | src/event.rs:96-100 | An empty count, or a lone comma, panics with `Empty`. |
| Parser.KillUnicodeDigit | src/event.rs:45-100 | A non-ASCII decimal digit matches `\d` but is refused by the parse (`InvalidDigit`). |
| Parser.KillOverflow | src/event.rs:96-100 | A count beyond 2^64 − 1 panics with `PosOverflow`. |
| Parser.NoActorNoEvent | src/event.rs:109-111 | Text that neither starts with `@@` nor ends with the restoring clause gives no event and no failure. |
| Parser.CureIgnoresId | src/event.rs:51-77 | The CURE arm's outcome does not depend on the id, apart from copying it. |
| Parser.ZombieIgnoresId | src/event.rs:51-92 | The ZOMBIE arm's outcome does not depend on the id, apart from copying it. |
| Parser.KillIgnoresId | src/event.rs:51-102 | The KILL arm's outcome does not depend on the id, apart from copying it. |
| Parser.MoveIgnoresId | src/event.rs:51-108 | The MOVE arm's outcome does not depend on the id, apart from copying it. |
| Parser.SameTextSameEvent | src/event.rs:50-119 | Two happenings with the same text and timestamp fail alike, are dropped alike, or give events that are equal and compare Equal. |
| FeedLines.KillSentence | src/event.rs:44-45 | The rendering of a concrete Kill match is the literal feed line. |
| FeedLines.MoveSentence | src/event.rs:46-47 | The rendering of a concrete Move match is the literal feed line. |
| FeedLines.KillExample | src/event.rs:93-102 | The Kill line with count "1,250" and level 3 parses to the Kill event with level 3 and 1250 affected. |
| FeedLines.MoveExample | src/event.rs:103-108 | A concrete Move line parses to the Move event with its nation and regions. |

## Left out

- `src/main.rs`: reading the feed, its filter pattern, the output, and its older duplicate of the event type. These are I/O around the core, and the duplicate is not used by `from_event`.
- The serde field renaming and `Debug`/`Clone` derives: they do not affect parsing or ordering.
- Sorting and deduplicating events, the graph builder and the statistics: their code is not part of this model.
- `lazy_static` and compiling the patterns: the four patterns are fixed, so each is a hand-written matcher instead of a general regex engine. The regex crate's leftmost-first choice coincides with the matchers because each match is unique (`Lexical.SpanOf`, the Complete lemmas).
- Decimal digits outside the Basic Multilingual Plane (for example the mathematical digits at U+1D7CE): the model's `\d` omits them.
  - On a count containing one, the source's pattern matches and the parse then panics. The panic is `InvalidDigit`, or `PosOverflow` when the ASCII digits before it already exceed 2^64 − 1.
  - The model's pattern does not match, so the line is dropped (`Ok(None)`).
  - The exception is a CURE line that also ends with the restoring clause. It fails with a missing `from`.
- `usize` is taken to be 64 bits wide.
- Strings are ordered by code point. This is the same order as Rust's byte-wise comparison of UTF-8.
- Parser.Group: the regex crate's `c[name]` indexing, not a function of the program. It yields the group's text when the group took part and fails naming the group otherwise.
- Panics are modelled as an `Err` result naming the cause. Unwinding and the process abort are not modelled.
- Events.EventType: the Zombie variant's `level` field is named `grade`, so that it is not confused with the numeric levels of Cure and Kill.
- Quantity.ParseUsize: its contract pins the `Empty` error exactly but does not separate `InvalidDigit` from `PosOverflow`, which depend on which fault comes first in the text. The body models that order.
