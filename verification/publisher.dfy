/** The decision at the end of `updatePokemonGithub` / `updateMoveGithub`:
    publish nothing when the sequences agree, otherwise replace the data file
    with the sorted store sequence under a message listing the differences. */
module Publisher {
  import opened Wrappers
  import opened Entities
  import opened Normaliser
  import opened Sorting
  import opened Differ
  import opened Text

  /** The two synced datasets. */
  datatype Kind = PokemonNames | Moves

  /** The word that starts each line of the commit message. */
  function KindLabel(kind: Kind): string
  {
    match kind
    case PokemonNames => "Pokemon"
    case Moves => "Move"
  }

  /** The data file a dataset is published to. */
  function FilePath(kind: Kind): string
  {
    match kind
    case PokemonNames => "src/lib/data/pokemonNames.json"
    case Moves => "src/lib/data/moves.json"
  }

  const Owner: string := "helblingjoel"
  const Repo: string := "pokecompanion"
  const Branch: string := "main"

  /** First line of the message: `Auto: N updates syncd`. */
  function Header(count: nat): string
  {
    "Auto: " + Digits(count) + " updates syncd"
  }

  /** One line per difference: `Pokemon k` or `Move k`. */
  function Label(kind: Kind, index: nat): string
  {
    KindLabel(kind) + " " + Digits(index)
  }

  function Labels(kind: Kind, diffs: seq<Difference>): seq<string>
  {
    seq(|diffs|, i requires 0 <= i < |diffs| => Label(kind, diffs[i].index))
  }

  /** The commit message: the header, a newline, then the labels joined by
      newlines. */
  function Message(kind: Kind, diffs: seq<Difference>): string
  {
    Header(|diffs|) + "\n" + Join(Labels(kind, diffs))
  }

  /** Reads the count back out of a header line; the count must be written
      as a number is printed (no leading zero). */
  function ReadHeader(line: string): Option<nat>
  {
    var prefix := "Auto: ";
    var suffix := " updates syncd";
    if |line| >= |prefix| + |suffix|
       && line[..|prefix|] == prefix
       && line[|line| - |suffix|..] == suffix
       && IsDecimal(line[|prefix|..|line| - |suffix|])
    then Some(ParseDigits(line[|prefix|..|line| - |suffix|]))
    else None
  }

  /** Reads the position back out of a label line of the given dataset; the
      position must be written as a number is printed (no leading zero). */
  function ReadLabel(kind: Kind, line: string): Option<nat>
  {
    var prefix := KindLabel(kind) + " ";
    if |line| >= |prefix|
       && line[..|prefix|] == prefix
       && IsDecimal(line[|prefix|..])
    then Some(ParseDigits(line[|prefix|..]))
    else None
  }

  /** A line that reads as the count `n` is exactly the header for `n`. */
  lemma ReadHeaderExact(line: string, n: nat)
    requires ReadHeader(line) == Some(n)
    ensures line == Header(n)
  {
    var mid := line[6..|line| - 14];
    DigitsOfParse(mid);
    assert line == line[..6] + mid + line[|line| - 14..];
  }

  /** A line that reads as position `k` is exactly the label for `k`. */
  lemma ReadLabelExact(kind: Kind, line: string, k: nat)
    requires ReadLabel(kind, line) == Some(k)
    ensures line == Label(kind, k)
  {
    var prefix := KindLabel(kind) + " ";
    DigitsOfParse(line[|prefix|..]);
    assert line == line[..|prefix|] + line[|prefix|..];
  }

  lemma ReadHeaderOfHeader(count: nat)
    ensures ReadHeader(Header(count)) == Some(count)
  {
    var line := Header(count);
    var d := Digits(count);
    assert line[..6] == "Auto: ";
    assert line[|line| - 14..] == " updates syncd";
    assert line[6..|line| - 14] == d;
    DigitsRoundTrip(count);
  }

  lemma ReadLabelOfLabel(kind: Kind, index: nat)
    ensures ReadLabel(kind, Label(kind, index)) == Some(index)
  {
    var prefix := KindLabel(kind) + " ";
    var line := Label(kind, index);
    assert line[..|prefix|] == prefix;
    assert line[|prefix|..] == Digits(index);
    DigitsRoundTrip(index);
  }

  /** The message is exactly a count line followed by one line per difference,
      in order; each line reads back as the count and the 1-based position. */
  lemma MessageReadsBack(kind: Kind, diffs: seq<Difference>)
    requires |diffs| > 0
    ensures |SplitLines(Message(kind, diffs))| == |diffs| + 1
    ensures ReadHeader(SplitLines(Message(kind, diffs))[0]) == Some(|diffs|)
    ensures forall i :: 0 <= i < |diffs| ==>
      ReadLabel(kind, SplitLines(Message(kind, diffs))[i + 1]) == Some(diffs[i].index)
  {
    var lines := [Header(|diffs|)] + Labels(kind, diffs);
    assert Join(lines) == Message(kind, diffs) by {
      assert lines[1..] == Labels(kind, diffs);
    }
    forall i | 0 <= i < |lines|
      ensures '\n' !in lines[i]
    {
      if i > 0 {
        assert lines[i] == Label(kind, diffs[i - 1].index);
        assert forall c :: c in Digits(diffs[i - 1].index) ==> IsDigit(c);
      }
    }
    SplitJoin(lines);
    ReadHeaderOfHeader(|diffs|);
    forall i | 0 <= i < |diffs|
      ensures ReadLabel(kind, lines[i + 1]) == Some(diffs[i].index)
    {
      ReadLabelOfLabel(kind, diffs[i].index);
    }
  }

  /** The call to `createOrUpdateFileContents`, minus the file's current sha,
      which the caller fetches just before publishing. */
  datatype Commit = Commit(
    owner: string, repo: string, path: string, branch: string,
    message: string, content: seq<Entity>)

  /** `false` (nothing to publish), or the publish call to be made and the
      differences to be returned once it succeeds. */
  datatype Outcome = NoChanges | Published(commit: Commit, differences: seq<Difference>)

  /** The decision on two id-sorted sequences. Nothing is published exactly
      when they agree everywhere; otherwise the store's sorted sequence is
      published to the dataset's file on `main`, the differences are
      returned, and the message lists them one per line after the count. */
  function Decide(kind: Kind, sortedDb: seq<Entity>, sortedGit: seq<Entity>): (r: Outcome)
    ensures r.NoChanges? <==> Agree(sortedDb, sortedGit)
    ensures r.Published? ==>
      && r.differences == FindDifferences(sortedDb, sortedGit)
      && |r.differences| > 0
      && r.commit.content == sortedDb
      && r.commit.owner == Owner && r.commit.repo == Repo
      && r.commit.path == FilePath(kind) && r.commit.branch == Branch
      && |SplitLines(r.commit.message)| == |r.differences| + 1
      && ReadHeader(SplitLines(r.commit.message)[0]) == Some(|r.differences|)
      && forall i :: 0 <= i < |r.differences| ==>
           ReadLabel(kind, SplitLines(r.commit.message)[i + 1]) == Some(r.differences[i].index)
  {
    var differences := FindDifferences(sortedDb, sortedGit);
    NoDifferencesIffAgree(sortedDb, sortedGit);
    if |differences| == 0 then
      NoChanges
    else
      MessageReadsBack(kind, differences);
      Published(Commit(Owner, Repo, FilePath(kind), Branch, Message(kind, differences), sortedDb),
                differences)
  }

  /** Both sequences sorted by the model's sort (earlier input first among
      equal ids), compared, and the decision taken. */
  function Sync(kind: Kind, db: seq<Entity>, git: seq<Entity>): (r: Outcome)
    ensures r.NoChanges? <==> Agree(SortById(db), SortById(git))
    ensures r.Published? ==>
      IsIdSorting(db, r.commit.content) && r.commit.path == FilePath(kind)
  {
    Decide(kind, SortById(db), SortById(git))
  }

  /** `updatePokemonGithub` on the fetched store records and data file. */
  function UpdatePokemonGithub(records: seq<PokemonRecord>, git: seq<Entity>): (r: Outcome)
    ensures r.NoChanges? <==> Agree(SortById(PokemonDbToJson(records)), SortById(git))
    ensures r.Published? ==>
      && IsIdSorting(PokemonDbToJson(records), r.commit.content)
      && (forall e :: e in r.commit.content ==> e.Pokemon? && Canonical(e.names))
      && r.commit.path == "src/lib/data/pokemonNames.json"
  {
    var db := PokemonDbToJson(records);
    var r := Sync(PokemonNames, db, git);
    assert r.Published? ==> forall e :: e in r.commit.content ==> e.Pokemon? && Canonical(e.names) by {
      if r.Published? {
        forall e | e in r.commit.content
          ensures e.Pokemon? && Canonical(e.names)
        {
          assert e in multiset(r.commit.content);
          var i :| 0 <= i < |db| && db[i] == e;
        }
      }
    }
    r
  }

  /** `updateMoveGithub` on the fetched store records and data file. */
  function UpdateMoveGithub(records: seq<MoveRecord>, git: seq<Entity>): (r: Outcome)
    ensures r.NoChanges? <==> Agree(SortById(MoveDbToJson(records)), SortById(git))
    ensures r.Published? ==>
      && IsIdSorting(MoveDbToJson(records), r.commit.content)
      && (forall e :: e in r.commit.content ==> e.Move? && Canonical(e.names))
      && r.commit.path == "src/lib/data/moves.json"
  {
    var db := MoveDbToJson(records);
    var r := Sync(Moves, db, git);
    assert r.Published? ==> forall e :: e in r.commit.content ==> e.Move? && Canonical(e.names) by {
      if r.Published? {
        forall e | e in r.commit.content
          ensures e.Move? && Canonical(e.names)
        {
          assert e in multiset(r.commit.content);
          var i :| 0 <= i < |db| && db[i] == e;
        }
      }
    }
    r
  }

  /** A publish writes the sorted store sequence (`Decide`). Running again
      against that file, with the store unchanged, publishes nothing. */
  lemma RepublishIsNoOp(kind: Kind, db: seq<Entity>)
    ensures Sync(kind, db, SortById(db)).NoChanges?
  {
    SortByIdIdempotent(db);
    NoDifferencesIffAgree(SortById(db), SortById(db));
  }

  /** The same holds whatever tie order either run's sort picks, provided
      the store holds no repeated id. */
  lemma SecondRunIsNoOp(
    kind: Kind, db: seq<Entity>, published: seq<Entity>,
    sortedDb: seq<Entity>, sortedGit: seq<Entity>)
    requires IsIdSorting(db, published)
    requires forall i, j :: 0 <= i < j < |published| ==> published[i].id < published[j].id
    requires IsIdSorting(db, sortedDb) && IsIdSorting(published, sortedGit)
    ensures Decide(kind, sortedDb, sortedGit).NoChanges?
  {
    IdSortingUnique(db, published, sortedDb);
    IdSortingUnique(db, published, sortedGit);
  }

  /** When neither side repeats an id, the decision does not depend on the
      tie order of either sort: all id-sortings give the same outcome. */
  lemma DecideIndependentOfTieOrder(
    kind: Kind, db: seq<Entity>, git: seq<Entity>,
    sortedDb: seq<Entity>, sortedDb': seq<Entity>,
    sortedGit: seq<Entity>, sortedGit': seq<Entity>)
    requires IsIdSorting(db, sortedDb) && IsIdSorting(db, sortedDb')
    requires IsIdSorting(git, sortedGit) && IsIdSorting(git, sortedGit')
    requires forall i, j :: 0 <= i < j < |sortedDb| ==> sortedDb[i].id < sortedDb[j].id
    requires forall i, j :: 0 <= i < j < |sortedGit| ==> sortedGit[i].id < sortedGit[j].id
    ensures Decide(kind, sortedDb, sortedGit) == Decide(kind, sortedDb', sortedGit')
  {
    IdSortingUnique(db, sortedDb, sortedDb');
    IdSortingUnique(git, sortedGit, sortedGit');
  }

  /** With a repeated id the tie order alone can decide whether anything is
      published: both orders of two moves sharing id 5 are id-sortings of the
      store, and against the same file one publishes and the other does not. */
  lemma TieOrderCanDecide()
    ensures
      var a := Move(5, [LocaleEntry("en", Text("a"))]);
      var b := Move(5, [LocaleEntry("en", Text("b"))]);
      && IsIdSorting([a, b], [a, b]) && IsIdSorting([a, b], [b, a])
      && Decide(Moves, [a, b], [a, b]).NoChanges?
      && Decide(Moves, [b, a], [a, b]).Published?
  {
    var a := Move(5, [LocaleEntry("en", Text("a"))]);
    var b := Move(5, [LocaleEntry("en", Text("b"))]);
    assert multiset([b, a]) == multiset([a, b]);
    assert NamesJson(b.names) != NamesJson(a.names) by {
      assert NamesJson(b.names)[0] == Member("en", Some("b"));
      assert NamesJson(a.names)[0] == Member("en", Some("a"));
    }
    assert !Agree([b, a], [a, b]);
  }
}
