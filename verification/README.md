# Sync core of `redeploy.js`, modelled in Dafny

The script keeps two published data files (`pokemonNames.json` and `moves.json`)
in step with the PocketBase collections `pokemon_names` and `moves`. For each
dataset it normalises the store records into entities `{id, names}` (Pokémon
also carry `generation` and `redirect`), sorts the store sequence and the
published file by `id`, walks both position by position with
`findDifferences`, and either returns `false` without publishing or replaces
the file with the sorted store sequence under a commit message that lists the
differing positions.

The model is pure and functional:

- `entities.dfy` (`Entities`): raw field values (`Undefined | Null | Text`),
  single-key locale entries, the two entity shapes, and `NamesJson`, the view of
  a `names` list that `JSON.stringify` produces. `JSON.stringify` drops keys
  whose value is `undefined`, so such an entry serialises as `{}`; `null` stays
  a member. Comparing serialised names is therefore order-sensitive and keeps
  `null` apart from `undefined`; on canonical lists it is plain structural
  equality (`CanonicalNamesJsonEquality`).
- `normaliser.dfy` (`Normaliser`): `pokemonDbToJson` / `moveDbToJson`.
- `sorting.dfy` (`Sorting`): the comparator `a.id > b.id ? 1 : -1` and an
  insertion sort driven by it. That comparator never answers 0, so the engine's
  order for equal ids is not fixed; the model's sort is one admissible choice
  (earlier input first). `Decide`, the differ lemmas, `SecondRunIsNoOp` and
  `DecideIndependentOfTieOrder` are stated for every ordering that is a
  permutation non-decreasing by id (`IsIdSorting`); `Sync` and the two
  `Update*` entry points are fixed to the model's tie order. With repeated ids
  the tie order alone can decide whether anything is published
  (`TieOrderCanDecide`).
- `differ.dfy` (`Differ`): `findDifferences`.
- `text.dfy` (`Text`): decimal printing, `join("\n")`, and line splitting used
  to state the message shape.
- `publisher.dfy` (`Publisher`): the decision and message of
  `updatePokemonGithub` / `updateMoveGithub`, returning `NoChanges` (the
  source's `false`) or `Published(commit, differences)`, where `commit` is the
  arguments of the single publish call.

Fetching (the PocketBase lists and the raw GitHub file) is replaced by
parameters: the store records and the parsed data file are inputs. The publish
call is returned as a value rather than performed, so "no publish call" is
`NoChanges`.

## Model

| member | source | states |
|---|---|---|
| Entities.EntryJsonEquality | redeploy.js:115-117 | two locale entries stringify alike iff they are equal or both hold `undefined` (its key is dropped) |
| Entities.NamesJsonEquality | redeploy.js:115-117 | stringified `names` lists are equal iff same length and entry-wise alike: order-sensitive, `null` distinct from `undefined` |
| Entities.CanonicalNamesJsonEquality | redeploy.js:115-117 | for two normalised lists the string comparison is exactly structural equality of the lists |
| Normaliser.NamesOf | redeploy.js:79-101 | a normalised `names` list has seven single-key entries in the order en, de, es, fr, it, ja-hrkt, zh-hans, and each key answers with the record's field (`ja_hrkt`, `zh_hans` renamed) |
| Normaliser.NamesRoundTrip | redeploy.js:79-101 | the record's locale fields can be read back from the list, and every canonical list comes from some record |
| Normaliser.NamesOfInjective | redeploy.js:79-101 | two records give the same names iff their locale fields agree |
| Normaliser.NormalisePokemon | redeploy.js:75-102 | a Pokémon entity takes `id` from `national_dex`, copies `generation` and `redirect`, and has canonical names holding the record's fields |
| Normaliser.NormaliseMove | redeploy.js:230-255 | a move entity takes `id` from `move_id` and has canonical names holding the record's fields |
| Normaliser.PokemonDbToJson | redeploy.js:70-106 | one Pokémon entity per record, in the store's order, each normalised as above |
| Normaliser.MoveDbToJson | redeploy.js:224-259 | one move entity per record, in the store's order, each normalised as above |
| Sorting.Insert | redeploy.js:137-139 | inserting by the comparator into an id-sorted sequence keeps it id-sorted and adds exactly that one element |
| Sorting.SortById | redeploy.js:137-143 | the sort returns a permutation of its input that is non-decreasing by id |
| Sorting.SortByIdOfSorted | redeploy.js:184-190 | the model's sort leaves an already id-sorted sequence unchanged |
| Sorting.SortByIdIdempotent | redeploy.js:184-190 | sorting the sorted sequence again gives the same sequence |
| Sorting.IdsPermutation | redeploy.js:137-143 | permuting entities permutes their ids |
| Sorting.SortedIntsUnique | redeploy.js:137-143 | two non-decreasing integer sequences with the same elements are equal |
| Sorting.IdSortingsAgreeOnIds | redeploy.js:137-143 | every id-sorting of one input has the same id at every position; only the order among equal ids can differ |
| Sorting.IdSortingUnique | redeploy.js:184-190 | with no repeated id there is exactly one id-sorting |
| Differ.Scan | redeploy.js:114-126 | the loop from position `i` yields at most one record per position, strictly increasing 1-based indices in range, each record built from a position whose ids or names differ |
| Differ.ScanComplete | redeploy.js:115-125 | every position of the loop's range whose ids or names differ gets its record |
| Differ.FindDifferences | redeploy.js:108-129 | at most `max(|db|, |git|)` records; indices strictly increasing in `1..max`; a record for position `p` iff ids or stringified names differ there; `db`/`git` fields hold each side's names or `None` when out of range |
| Differ.NoDifferencesIffAgree | redeploy.js:111-128 | no records iff the sequences have equal length and equal ids and names at every position |
| Differ.MissingSideReported | redeploy.js:114-124 | every position from the shorter length to the longer length minus one is reported, with the missing side shown as `None` |
| Differ.SelfHasNoDifferences | redeploy.js:115-118 | a sequence compared with itself yields no records |
| Differ.DifferencesIgnoreMetadata | redeploy.js:115-119 | only ids and names are compared: a change confined to `generation` or `redirect` produces the same records |
| Text.Digits | redeploy.js:165 | a number prints as a non-empty string of decimal digits without a leading zero |
| Text.DigitsRoundTrip | redeploy.js:165 | the printed number reads back as the number |
| Text.DigitsOfParse | redeploy.js:165 | every digit string without a leading zero is the printed form of the number it reads as |
| Text.SplitJoin | redeploy.js:165-169 | lines without newlines joined with `\n` split back into the same lines |
| Publisher.ReadHeaderOfHeader | redeploy.js:165 | the first message line `Auto: N updates syncd` reads back as N |
| Publisher.ReadLabelOfLabel | redeploy.js:166-168 | a label line `Pokemon k` / `Move k` reads back as k |
| Publisher.ReadHeaderExact | redeploy.js:165 | a line that reads as count N is exactly `Auto: N updates syncd` |
| Publisher.ReadLabelExact | redeploy.js:166-168 | a line that reads as position k is exactly `Pokemon k` / `Move k` |
| Publisher.MessageReadsBack | redeploy.js:165-169 | the message is one count line followed by exactly one label line per difference, in order, each reading back as that difference's index |
| Publisher.Decide | redeploy.js:145-175 | nothing is published iff the sorted sequences agree; otherwise the sorted store sequence is published to the dataset's file on `main` of `helblingjoel/pokecompanion`, the differences are returned, and the message has the shape above |
| Publisher.Sync | redeploy.js:137-175 | with the model's tie order: nothing is published iff the sorted sequences agree; the published content is an id-sorting of the store sequence |
| Publisher.UpdatePokemonGithub | redeploy.js:131-176 | nothing is published iff the sorted store and file sequences agree; when it publishes, it writes `src/lib/data/pokemonNames.json` with an id-sorting of the normalised store records, all canonical Pokémon entities |
| Publisher.UpdateMoveGithub | redeploy.js:178-222 | nothing is published iff the sorted store and file sequences agree; when it publishes, it writes `src/lib/data/moves.json` with an id-sorting of the normalised move records, all canonical move entities |
| Publisher.RepublishIsNoOp | redeploy.js:137-149 | a publish writes the sorted store sequence; running again against that file with the store unchanged publishes nothing |
| Publisher.DecideIndependentOfTieOrder | redeploy.js:137-149 | when neither side repeats an id, every pair of id-sortings gives the same decision |
| Publisher.TieOrderCanDecide | redeploy.js:184-196 | with a repeated id, two admissible tie orders of the store can lead one to publish and the other not |
| Publisher.SecondRunIsNoOp | redeploy.js:184-196 | with no repeated id in the store, a second run publishes nothing whatever tie order either run's sort picks |

## Left out

- The PocketBase `getFullList` calls, the raw GitHub `fetch` of the data file, `getFileSha` and `createOrUpdateFileContents`: remote I/O. The records and the parsed file are inputs; the publish call is the returned `Commit`, without the sha, which is fetched just before publishing.
- `Promise.all`, `handler`, `main`, its environment-variable check and `getAuthedPb` (whose source is not part of this model): async plumbing with logging only.
- Console logging, including the "Highest ID" line.
- Base64 encoding of the content and the byte-exact output of `JSON.stringify`: the content is the entity sequence itself and names are compared through the structural `NamesJson` view.
- Data-file entries of other shapes than the store produces (no `id`, no `names`, entries with several keys, non-string values): the parsed file is taken to hold entities of the modelled shape.
- Sorting.SortById: models one tie order (earlier input first) where the engine's order for equal ids is unspecified. `Decide`, the differ lemmas and `SecondRunIsNoOp` hold for every id-sorting.
- Publisher.Sync: fixed to the model's tie order, as are Publisher.UpdatePokemonGithub and Publisher.UpdateMoveGithub. When ids repeat, whether anything is published depends on the engine's tie order (Publisher.TieOrderCanDecide); without repeated ids it does not (Publisher.DecideIndependentOfTieOrder).
- Failure of `getFileSha` or `createOrUpdateFileContents`: the source then throws (caught and logged in `main`) and returns no differences. `Published` describes the call to be made and the result on success only.
- Publisher.RepublishIsNoOp: relies on the model's sort leaving sorted input unchanged; for an arbitrary engine sort the guarantee holds only without repeated ids (Publisher.SecondRunIsNoOp).

