/** `pokemonDbToJson` and `moveDbToJson`: store records to canonical entities. */
module Normaliser {
  import opened Wrappers
  import opened Entities

  /** The seven locale fields of a store record (`en` … `zh_hans`). */
  datatype Translations = Translations(
    en: Name, de: Name, es: Name, fr: Name, it: Name, jaHrkt: Name, zhHans: Name)

  /** A record of the `pokemon_names` collection. */
  datatype PokemonRecord = PokemonRecord(
    nationalDex: int, generation: Field, redirect: Field, translations: Translations)

  /** A record of the `moves` collection. */
  datatype MoveRecord = MoveRecord(moveId: int, translations: Translations)

  /** The name stored under `locale` by the first entry with that key. */
  function NameFor(names: seq<LocaleEntry>, locale: string): Option<Name>
  {
    if |names| == 0 then None
    else if names[0].locale == locale then Some(names[0].name)
    else NameFor(names[1..], locale)
  }

  /** The `names` list of a normalised entity: canonical, and each locale key
      answers with the record's field for it (`ja-hrkt` from `ja_hrkt`,
      `zh-hans` from `zh_hans`). */
  function NamesOf(t: Translations): (names: seq<LocaleEntry>)
    ensures Canonical(names)
    ensures NameFor(names, "en") == Some(t.en)
    ensures NameFor(names, "de") == Some(t.de)
    ensures NameFor(names, "es") == Some(t.es)
    ensures NameFor(names, "fr") == Some(t.fr)
    ensures NameFor(names, "it") == Some(t.it)
    ensures NameFor(names, "ja-hrkt") == Some(t.jaHrkt)
    ensures NameFor(names, "zh-hans") == Some(t.zhHans)
  {
    var names :=
      [ LocaleEntry("en", t.en), LocaleEntry("de", t.de), LocaleEntry("es", t.es),
        LocaleEntry("fr", t.fr), LocaleEntry("it", t.it),
        LocaleEntry("ja-hrkt", t.jaHrkt), LocaleEntry("zh-hans", t.zhHans) ];
    NameForFirst(names, 2);
    NameForFirst(names, 3);
    NameForFirst(names, 4);
    NameForFirst(names, 5);
    NameForFirst(names, 6);
    names
  }

  /** The entry at `i` answers for its key when no earlier entry has that key. */
  lemma {:induction false} NameForFirst(names: seq<LocaleEntry>, i: nat)
    requires i < |names|
    requires forall j :: 0 <= j < i ==> names[j].locale != names[i].locale
    ensures NameFor(names, names[i].locale) == Some(names[i].name)
  {
    if i > 0 {
      NameForFirst(names[1..], i - 1);
    }
  }

  /** Reads the seven fields back out of a canonical `names` list. */
  function TranslationsOf(names: seq<LocaleEntry>): Translations
    requires Canonical(names)
  {
    Translations(names[0].name, names[1].name, names[2].name, names[3].name,
                 names[4].name, names[5].name, names[6].name)
  }

  /** Normalisation loses nothing: the record's fields can be read back from
      the names list, and every canonical list is the image of some record. */
  lemma NamesRoundTrip(t: Translations, names: seq<LocaleEntry>)
    requires Canonical(names)
    ensures TranslationsOf(NamesOf(t)) == t
    ensures NamesOf(TranslationsOf(names)) == names
  {
    var r := NamesOf(TranslationsOf(names));
    assert forall i :: 0 <= i < |names| ==> r[i] == names[i] by {
      assert forall i :: 0 <= i < |names| ==> names[i].locale == Locales[i];
    }
  }

  /** Two records normalise to the same names exactly when their locale
      fields agree. */
  lemma NamesOfInjective(t: Translations, u: Translations)
    ensures NamesOf(t) == NamesOf(u) <==> t == u
  {
    if NamesOf(t) == NamesOf(u) {
      NamesRoundTrip(t, NamesOf(t));
      NamesRoundTrip(u, NamesOf(u));
    }
  }

  /** One `pokemon_names` record as an entity: `id` from `national_dex`,
      `generation` and `redirect` copied. */
  function NormalisePokemon(rec: PokemonRecord): (e: Entity)
    ensures e.Pokemon? && e.id == rec.nationalDex
    ensures e.generation == rec.generation && e.redirect == rec.redirect
    ensures Canonical(e.names) && TranslationsOf(e.names) == rec.translations
  {
    Pokemon(rec.nationalDex, rec.generation, rec.redirect, NamesOf(rec.translations))
  }

  /** One `moves` record as an entity: `id` from `move_id`. */
  function NormaliseMove(rec: MoveRecord): (e: Entity)
    ensures e.Move? && e.id == rec.moveId
    ensures Canonical(e.names) && TranslationsOf(e.names) == rec.translations
  {
    Move(rec.moveId, NamesOf(rec.translations))
  }

  /** `pokemonDbToJson`: one entity per record, in the store's order. */
  function PokemonDbToJson(records: seq<PokemonRecord>): (db: seq<Entity>)
    ensures |db| == |records|
    ensures forall i :: 0 <= i < |db| ==>
      && db[i].Pokemon?
      && db[i].id == records[i].nationalDex
      && db[i].generation == records[i].generation
      && db[i].redirect == records[i].redirect
      && Canonical(db[i].names)
      && TranslationsOf(db[i].names) == records[i].translations
  {
    seq(|records|, i requires 0 <= i < |records| => NormalisePokemon(records[i]))
  }

  /** `moveDbToJson`: one entity per record, in the store's order. */
  function MoveDbToJson(records: seq<MoveRecord>): (db: seq<Entity>)
    ensures |db| == |records|
    ensures forall i :: 0 <= i < |db| ==>
      && db[i].Move?
      && db[i].id == records[i].moveId
      && Canonical(db[i].names)
      && TranslationsOf(db[i].names) == records[i].translations
  {
    seq(|records|, i requires 0 <= i < |records| => NormaliseMove(records[i]))
  }
}
