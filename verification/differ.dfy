/** `findDifferences`: walks two id-sorted sequences position by position up
    to the longer length and records every position where they disagree. */
module Differ {
  import opened Wrappers
  import opened Entities

  /** One disagreement: the 1-based position, and the serialised `names` at
      that position on each side (`None` where that side has no entity, as
      `JSON.stringify(undefined)` is `undefined`). */
  datatype Difference = Difference(
    index: nat, db: Option<seq<JsonEntry>>, git: Option<seq<JsonEntry>>)

  /** `s[i]?.id` */
  function IdAt(s: seq<Entity>, i: nat): Option<int>
  {
    if i < |s| then Some(s[i].id) else None
  }

  /** `JSON.stringify(s[i]?.names)` */
  function NamesAt(s: seq<Entity>, i: nat): Option<seq<JsonEntry>>
  {
    if i < |s| then Some(NamesJson(s[i].names)) else None
  }

  /** `moreEntries`: the length of the longer sequence. */
  function Longer(db: seq<Entity>, git: seq<Entity>): nat
  {
    if |db| > |git| then |db| else |git|
  }

  /** The loop's test at position `i`. */
  predicate Differs(db: seq<Entity>, git: seq<Entity>, i: nat)
  {
    NamesAt(db, i) != NamesAt(git, i) || IdAt(db, i) != IdAt(git, i)
  }

  /** The record the loop pushes at position `i`. */
  function RecordAt(db: seq<Entity>, git: seq<Entity>, i: nat): Difference
  {
    Difference(i + 1, NamesAt(db, i), NamesAt(git, i))
  }

  /** The iterations `i .. n - 1` of the loop, in order. */
  function Scan(db: seq<Entity>, git: seq<Entity>, i: nat, n: nat): (r: seq<Difference>)
    requires i <= n
    ensures |r| <= n - i
    ensures forall k :: 0 <= k < |r| ==> i < r[k].index <= n
    ensures forall k, l :: 0 <= k < l < |r| ==> r[k].index < r[l].index
    ensures forall k :: 0 <= k < |r| ==>
      r[k] == RecordAt(db, git, r[k].index - 1) && Differs(db, git, r[k].index - 1)
    decreases n - i
  {
    if i == n then []
    else
      var rest := Scan(db, git, i + 1, n);
      if Differs(db, git, i) then [RecordAt(db, git, i)] + rest else rest
  }

  /** Every differing position in `i .. n - 1` gets its record. */
  lemma {:induction false} ScanComplete(db: seq<Entity>, git: seq<Entity>, i: nat, n: nat, p: nat)
    requires i <= p < n && Differs(db, git, p)
    ensures RecordAt(db, git, p) in Scan(db, git, i, n)
    decreases n - i
  {
    if p > i {
      ScanComplete(db, git, i + 1, n, p);
    }
  }

  /** `findDifferences(sortedDb, sortedGit)`: at most one record per position,
      strictly increasing 1-based indices within `1 .. max(|db|, |git|)`, and a
      record for a position exactly when the ids or serialised names there
      differ (a missing side included), holding both sides' names. */
  function FindDifferences(db: seq<Entity>, git: seq<Entity>): (r: seq<Difference>)
    ensures |r| <= Longer(db, git)
    ensures forall k :: 0 <= k < |r| ==> 1 <= r[k].index <= Longer(db, git)
    ensures forall k, l :: 0 <= k < l < |r| ==> r[k].index < r[l].index
    ensures forall k :: 0 <= k < |r| ==>
      && r[k].db == NamesAt(db, r[k].index - 1)
      && r[k].git == NamesAt(git, r[k].index - 1)
    ensures forall p :: 0 <= p < Longer(db, git) ==>
      (RecordAt(db, git, p) in r <==> Differs(db, git, p))
  {
    var r := Scan(db, git, 0, Longer(db, git));
    assert forall p :: 0 <= p < Longer(db, git) && Differs(db, git, p) ==> RecordAt(db, git, p) in r by {
      forall p | 0 <= p < Longer(db, git) && Differs(db, git, p)
        ensures RecordAt(db, git, p) in r
      {
        ScanComplete(db, git, 0, Longer(db, git), p);
      }
    }
    r
  }

  /** The two sequences agree everywhere: same length, and at each position the
      same id and the same serialised names. */
  predicate Agree(db: seq<Entity>, git: seq<Entity>)
  {
    && |db| == |git|
    && forall i :: 0 <= i < |db| ==>
         db[i].id == git[i].id && NamesJson(db[i].names) == NamesJson(git[i].names)
  }

  /** No records exactly when the sequences agree everywhere. */
  lemma NoDifferencesIffAgree(db: seq<Entity>, git: seq<Entity>)
    ensures FindDifferences(db, git) == [] <==> Agree(db, git)
  {
    var r := FindDifferences(db, git);
    if r != [] {
      var p := r[0].index - 1;
      assert RecordAt(db, git, p) in r;
      assert Differs(db, git, p);
      assert !Agree(db, git);
    }
    if !Agree(db, git) {
      var p: nat;
      if |db| != |git| {
        p := if |db| < |git| then |db| else |git|;
      } else {
        p :| 0 <= p < |db| &&
          !(db[p].id == git[p].id && NamesJson(db[p].names) == NamesJson(git[p].names));
      }
      assert Differs(db, git, p);
      assert RecordAt(db, git, p) in r;
    }
  }

  /** Positions beyond the shorter sequence are always reported, with the
      missing side shown as `None`: a missing entity never matches a present
      one. */
  lemma MissingSideReported(db: seq<Entity>, git: seq<Entity>, p: nat)
    requires |db| <= p < |git| || |git| <= p < |db|
    ensures Difference(p + 1, NamesAt(db, p), NamesAt(git, p)) in FindDifferences(db, git)
    ensures NamesAt(db, p) == None || NamesAt(git, p) == None
  {
    assert Differs(db, git, p);
  }

  /** A sequence compared with itself yields no records. */
  lemma SelfHasNoDifferences(s: seq<Entity>)
    ensures FindDifferences(s, s) == []
  {
    NoDifferencesIffAgree(s, s);
  }

  /** Only ids and names are compared: entities that differ in anything else
      (a Pokémon's `generation` or `redirect`) at the same positions give the
      same records. */
  lemma {:induction false} DifferencesIgnoreMetadata(db: seq<Entity>, db': seq<Entity>, git: seq<Entity>)
    requires |db| == |db'|
    requires forall i :: 0 <= i < |db| ==> db[i].id == db'[i].id && db[i].names == db'[i].names
    ensures FindDifferences(db, git) == FindDifferences(db', git)
  {
    ScanIgnoresMetadata(db, db', git, 0, Longer(db, git));
  }

  lemma {:induction false} ScanIgnoresMetadata(
    db: seq<Entity>, db': seq<Entity>, git: seq<Entity>, i: nat, n: nat)
    requires i <= n
    requires |db| == |db'|
    requires forall i :: 0 <= i < |db| ==> db[i].id == db'[i].id && db[i].names == db'[i].names
    ensures Scan(db, git, i, n) == Scan(db', git, i, n)
    decreases n - i
  {
    if i < n {
      ScanIgnoresMetadata(db, db', git, i + 1, n);
      assert NamesAt(db, i) == NamesAt(db', i) && IdAt(db, i) == IdAt(db', i);
    }
  }
}
