/** The canonical entities compared by the sync script (`redeploy.js`), and the
    JSON view of their locale names that the script compares with
    `JSON.stringify`. */
module Entities {
  import opened Wrappers

  /** The value of one locale field of a store record: JavaScript `undefined`
      (the record has no such field), `null`, or a string. */
  datatype Name = Undefined | Null | Text(s: string)

  /** A pass-through field (`generation`, `redirect`): copied, never compared. */
  datatype Field = Missing | NullField | Number(n: int) | Str(s: string) | Bool(b: bool)

  /** One single-key object `{ [locale]: name }` of an entity's `names` list. */
  datatype LocaleEntry = LocaleEntry(locale: string, name: Name)

  /** A normalised record. Pokémon also carry `generation` and `redirect`. */
  datatype Entity =
    | Pokemon(id: int, generation: Field, redirect: Field, names: seq<LocaleEntry>)
    | Move(id: int, names: seq<LocaleEntry>)

  /** The fixed order of the locale keys in every normalised `names` list. */
  const Locales: seq<string> := ["en", "de", "es", "fr", "it", "ja-hrkt", "zh-hans"]

  /** True when `names` holds exactly one entry per locale, in the fixed order. */
  predicate Canonical(names: seq<LocaleEntry>)
  {
    |names| == |Locales| && forall i :: 0 <= i < |names| ==> names[i].locale == Locales[i]
  }

  /** What one locale entry serialises to. `JSON.stringify` drops a key whose
      value is `undefined`, so such an entry becomes the empty object `{}`;
      `null` stays a member with a null value (`None`). */
  datatype JsonEntry = EmptyObject | Member(locale: string, value: Option<string>)

  function EntryJson(e: LocaleEntry): JsonEntry
  {
    match e.name
    case Undefined => EmptyObject
    case Null => Member(e.locale, None)
    case Text(s) => Member(e.locale, Some(s))
  }

  /** The serialised form of a `names` list, entry by entry, in order. */
  function NamesJson(names: seq<LocaleEntry>): seq<JsonEntry>
  {
    if |names| == 0 then [] else [EntryJson(names[0])] + NamesJson(names[1..])
  }

  /** Two entries serialise alike exactly when they are equal, or both hold
      `undefined` (whatever their keys). */
  predicate SameJson(a: LocaleEntry, b: LocaleEntry)
  {
    a == b || (a.name.Undefined? && b.name.Undefined?)
  }

  lemma EntryJsonEquality(a: LocaleEntry, b: LocaleEntry)
    ensures EntryJson(a) == EntryJson(b) <==> SameJson(a, b)
  {
  }

  /** Serialised `names` lists are equal exactly when the lists have the same
      length and agree entry by entry up to dropped `undefined` keys: the
      comparison is order-sensitive and keeps `null` apart from `undefined`. */
  lemma {:induction false} NamesJsonEquality(a: seq<LocaleEntry>, b: seq<LocaleEntry>)
    ensures NamesJson(a) == NamesJson(b) <==>
      |a| == |b| && forall i :: 0 <= i < |a| ==> SameJson(a[i], b[i])
  {
    NamesJsonLength(a);
    NamesJsonLength(b);
    if |a| == |b| {
      if forall i :: 0 <= i < |a| ==> SameJson(a[i], b[i]) {
        forall i | 0 <= i < |a|
          ensures NamesJson(a)[i] == NamesJson(b)[i]
        {
          NamesJsonAt(a, i);
          NamesJsonAt(b, i);
          EntryJsonEquality(a[i], b[i]);
        }
      }
      if NamesJson(a) == NamesJson(b) {
        forall i | 0 <= i < |a|
          ensures SameJson(a[i], b[i])
        {
          NamesJsonAt(a, i);
          NamesJsonAt(b, i);
          EntryJsonEquality(a[i], b[i]);
        }
      }
    }
  }

  lemma {:induction false} NamesJsonLength(a: seq<LocaleEntry>)
    ensures |NamesJson(a)| == |a|
  {
    if |a| > 0 {
      NamesJsonLength(a[1..]);
    }
  }

  lemma {:induction false} NamesJsonAt(a: seq<LocaleEntry>, i: nat)
    requires i < |a|
    ensures |NamesJson(a)| == |a| && NamesJson(a)[i] == EntryJson(a[i])
  {
    NamesJsonLength(a);
    if i > 0 {
      NamesJsonAt(a[1..], i - 1);
    }
  }

  /** For two canonical lists (the normaliser's output) serialised equality is
      plain structural equality: the keys are fixed per position, so dropping
      an `undefined` key loses nothing. */
  lemma CanonicalNamesJsonEquality(a: seq<LocaleEntry>, b: seq<LocaleEntry>)
    requires Canonical(a) && Canonical(b)
    ensures NamesJson(a) == NamesJson(b) <==> a == b
  {
    NamesJsonEquality(a, b);
    if NamesJson(a) == NamesJson(b) {
      assert forall i :: 0 <= i < |a| ==> a[i] == b[i] by {
        forall i | 0 <= i < |a|
          ensures a[i] == b[i]
        {
          assert SameJson(a[i], b[i]);
          assert a[i].locale == b[i].locale == Locales[i];
        }
      }
    }
  }
}
