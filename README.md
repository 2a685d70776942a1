# Character alignment codec and record defaults

This project models the behaviour of the character record of the `my-dnd-world`
website (`website/src/props/character.rs`):

- the two alignment axes, `Order` (Lawful, Neutral, Chaotic) and `Morality`
  (Good, Neutral, Evil), and their exact-match keyword parsers `from_str`;
- the custom serde codec of a character's alignment pair. Human-readable
  formats carry it as one string such as `"Chaotic Evil"`, written with
  `format!` and read back by a whitespace tokeniser that has four error
  outcomes. Other formats carry it as a 2-tuple, order first;
- `Character::new`, the defaults of a fresh record, and `total_level`, the
  sum of the per-class levels.

Modules:

- `Wrappers` (`wrappers.dfy`): `Option` and `Result`.
- `Whitespace` (`whitespace.dfy`): Rust's `str::split_whitespace`, which
  `visit_str` relies on. `Tokens` gives all tokens as a value. The class
  `SplitWhitespace` is the iterator that `visit_str` advances with `next()`,
  and its `Next` is proved to hand out the elements of `Tokens` in order.
  Whitespace is what `char::is_whitespace` accepts: the Unicode White_Space
  property.
- `Props` (`props.dfy`): the enums, `from_str`, the `Character` record,
  `Character::new` and `total_level`. Levels and ability scores are `u32`
  values. The total level is an unbounded `nat`.
- `Alignment` (`alignment.dfy`): the `alignment` serde module. `ParseAlignment`
  is `visit_str` as a function. `VisitStr` is the same visitor written step by
  step over the iterator, and is proved equal to `ParseAlignment`. `VisitSeq`
  is the tuple visitor. `Serialize` and `Deserialize` pick between the string
  form and the tuple form using the format's `is_human_readable` flag, passed
  in as a boolean.

The data formats are abstracted. The serialiser's output is either a string
or a tuple of elements. A tuple element is the serde variant index that the
derived impls give a unit enum variant, which is its position in the
declaration. The deserialiser's errors are a small datatype:
- `Custom(msg)` carries the visitor's own messages ("Missing order",
  "Missing morality", "Invalid order", "Invalid morality");
- `InvalidType` is the format refusing input of the wrong shape;
- `InvalidVariantIndex(i)` is the derived enum decoder refusing an unknown index.

## Model

| member | source | states |
|---|---|---|
| Props.ParseMorality | website/src/props/character.rs:18-29 | succeeds exactly on the three variant names, each mapping to its own variant; every other string (other case, padded, empty) is `InvalidMorality` |
| Props.ParseOrder | website/src/props/character.rs:41-52 | succeeds exactly on "Lawful", "Neutral", "Chaotic", each mapping to its own variant; every other string is `InvalidOrder` |
| Props.Character.New | website/src/props/character.rs:215-241 | a fresh record is named "<unnamed>", has origin "<not chosen>", species Human, alignment (Neutral, Neutral), all six ability scores 10 and no classes, so its total level is 0 |
| Props.Character.TotalLevel | website/src/props/character.rs:243-245 | the total level is the sum of the class levels taken in any order, as a hash map's iterator would visit them |
| Props.LevelSumIsSumOfLevels | website/src/props/character.rs:243-245 | adding the levels class by class in declaration order equals adding them in any order the map's entries are visited |
| Props.TotalLevelRemove | website/src/props/character.rs:243-245 | each class taken contributes its level to the total exactly once |
| Props.LevelAtMostTotal | website/src/props/character.rs:243-245 | no single class's level exceeds the total level |
| Props.TotalLevelUpdate | website/src/props/character.rs:243-245 | setting one class's level changes the total by exactly the difference between the new and old level |
| Whitespace.TokensAreWords | website/src/props/character.rs:100 | every token produced by splitting on whitespace is non-empty and contains no whitespace |
| Whitespace.TokensSkipWhitespace | website/src/props/character.rs:100 | leading whitespace of any kind and length produces no token |
| Whitespace.TokensSplitAtWhitespace | website/src/props/character.rs:100 | a non-empty whitespace run separates: the tokens of `a + w + b` are those of `a` followed by those of `b`, so repeated and trailing whitespace is tolerated |
| Whitespace.TokensOfJoin | website/src/props/character.rs:100 | splitting on whitespace undoes joining words with a whitespace separator |
| Whitespace.FirstTwoTokens | website/src/props/character.rs:100-106 | two words padded by whitespace are the first two tokens, whatever follows the whitespace after the second |
| Whitespace.SkipWhitespace | website/src/props/character.rs:100-103 | the iterator's scan past whitespace stops at the next non-whitespace character or the end, and loses no token |
| Whitespace.ScanWord | website/src/props/character.rs:100-103 | the iterator's scan of a word stops at the first whitespace character or the end, and everything scanned is non-whitespace |
| Whitespace.SplitWhitespace.Next | website/src/props/character.rs:100-106 | each `next()` yields the first token not yet handed out and removes it, or `None` once none remain |
| Alignment.FormatAlignment | website/src/props/character.rs:69-71 | the `{:?} {:?}` text splits into exactly two tokens, the order's variant name and then the morality's |
| Alignment.FormatTokens | website/src/props/character.rs:69-71 | the `{:?} {:?}` text is the order's variant name and the morality's variant name joined by a single space |
| Alignment.ParseAlignment | website/src/props/character.rs:96-114 | no token gives "Missing order"; exactly one token gives "Missing morality"; an unknown first token gives "Invalid order" whatever the second is; only then does an unknown second token give "Invalid morality"; success exactly when the first two tokens are the pair's names |
| Alignment.VisitStr | website/src/props/character.rs:96-114 | the visitor that advances the token iterator twice returns exactly what `ParseAlignment` specifies |
| Alignment.DecodeOrder | website/src/props/character.rs:120-122 | an element decodes to the order whose variant index it is, and any other index is refused with that index |
| Alignment.DecodeMorality | website/src/props/character.rs:123-125 | an element decodes to the morality whose variant index it is, and any other index is refused with that index |
| Alignment.VisitSeq | website/src/props/character.rs:116-127 | an empty tuple gives "Missing order"; a bad first element is refused before the second is read; a one-element tuple with a good order gives "Missing morality"; success exactly when the first two elements are the pair's indices |
| Alignment.Serialize | website/src/props/character.rs:65-78 | a human-readable format gets exactly the order's name, one space and the morality's name, which splits back into those two names; any other format gets a 2-tuple whose first element decodes to the order and whose second decodes to the morality |
| Alignment.Deserialize | website/src/props/character.rs:81-135 | a human-readable format's string goes to the string visitor and any other format's tuple to the tuple visitor; the format, taken to honour the requested shape, refuses input of the other shape |
| Alignment.FormatThenParse | website/src/props/character.rs:69-114 | parsing the human-readable form of any pair returns that pair, "Neutral Neutral" included, since position decides which enum a token is read as |
| Alignment.FormatInjective | website/src/props/character.rs:69-71 | different pairs are written as different strings |
| Alignment.SerializeThenDeserialize | website/src/props/character.rs:65-135 | for both kinds of format, deserialising what was serialised returns the same pair |
| Alignment.ParsePadded | website/src/props/character.rs:100-113 | leading, repeated and trailing whitespace is tolerated, and anything after the second token is ignored |
| Alignment.BlankIsMissingOrder | website/src/props/character.rs:100-103 | a string that is empty or all whitespace fails with "Missing order" |
| Alignment.OneWordIsMissingMorality | website/src/props/character.rs:100-106 | a single word, padded by any whitespace and whether or not it names an order, fails with "Missing morality" |
| Alignment.InvalidOrderReportedFirst | website/src/props/character.rs:101-111 | two words whose first is no order name fail with "Invalid order", even when the second is no morality name either |
| Alignment.ExtraTokenIgnored | website/src/props/character.rs:100-113 | "Chaotic Evil extra" parses to (Chaotic, Evil) |
| Alignment.NeutralNeutralText | website/src/props/character.rs:69-71 | the alignment (Neutral, Neutral) that a fresh record starts with is written "Neutral Neutral" |

## Left out

- Props.Character.TotalLevel: the sum is an unbounded `nat`. Rust's `sum::<u32>()` panics on overflow in debug builds and wraps in release builds, and neither is modelled.
- Serialisation errors: `serialize_str`, `serialize_tuple` and `serialize_element` can fail inside the data format. `Serialize` is modelled as total.
- Data formats: the model does not include serde's `Serializer`/`Deserializer` machinery or any concrete format. A tuple element stands for the variant index that the derived enum impls pass to the format. Formats that encode enum variants by name are not distinguished.
- `expecting`: the visitor's description text for wrong-shape input is not modelled. `InvalidType` carries no message.
- The derived serde impls of `Character` and of the other records are not modelled, including skipping an empty class map.
- `Character` field names: the source's `str`, `dex`, `con`, `int`, `wis` and `cha` are named `strength`, `dexterity`, `constitution`, `intelligence`, `wisdom` and `charisma`, because `int` is a Dafny keyword.
- `is_zero` and `Sex` are declared in the source but never used, so they are not modelled.
- Alignment.Deserialize: the model assumes a data format that honours the requested shape (`deserialize_str` or `deserialize_tuple`) and refuses the other one as an invalid type. The source only passes serde that hint. A self-describing format may forward the request to `deserialize_any`, and then a tuple reaches `visit_seq` (or a string reaches `visit_str`) whichever flag is set. Those formats accept either shape, and the model does not capture that. The modelled format also does not check the tuple's length against the 2 requested by `deserialize_tuple(2, …)`: it hands the elements to `visit_seq` as they are, so a longer tuple's extra elements are never read.
- Markdown pages (`website/src/markdown.rs`): rendering is a single call into the `pulldown_cmark` library, and the HTML is injected through `dangerous_inner_html`. There is no logic of the repository's own to model.
- Routing, navigation and the character pages (`website/src/main.rs`, `website/src/nav.rs`, `website/src/character.rs`) are UI wiring with no logic to state. They also use random identifiers and navigation side effects.
- The weapon, armour, damage and dice declarations under `website/src/props/` are plain data with derived impls and no functions. `Species` and `Class` are mirrored here because the record uses them.
