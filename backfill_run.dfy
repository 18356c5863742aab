/** The loop of the backfill's main over the league spreadsheets
    (backfill_league.py lines 316-368): the scores and starting words of
    every file that exists, the starting words kept once per (date, word),
    and the duplicate (player, game, date) scores either refused or
    resolved by keeping the first. The command line, the messages on
    stderr and the SQL output are not modelled. */
module BackfillRun {
  import opened Wrappers
  import opened BackfillCells
  import opened BackfillSheet
  import opened BackfillFile
  import opened Dedup

  /** The key of scores_user_game_date_unique: (player, game, date). */
  type ScoreKeyT = (string, string, string)

  function ScoreKey(s: Score): ScoreKeyT { (s.player, s.gameSlug, s.date) }

  /** A (date, word) pair is its own key. */
  function WordKey(w: (string, string)): (string, string) { w }

  /** How main ends: with the scores and starting words; with the error
      process_file raised; or, without --deduplicate, refusing the keys
      that several scores share. */
  datatype Outcome =
    | Done(scores: seq<Score>, words: seq<(string, string)>)
    | FileFailed(error: string)
    | DuplicateScores(keys: set<ScoreKeyT>)

  /** What process_file gives on each file, None for a file that does not exist. */
  type FileOutcome = Option<Result<FileOut, string>>

  function FileOutcomes(files: seq<Option<seq<Row>>>, strptime: Strptime): (outs: seq<FileOutcome>)
    ensures |outs| == |files|
  {
    seq(|files|, i requires 0 <= i < |files| =>
      if files[i].None? then None else Some(FileSpec(files[i].value, strptime)))
  }

  /** Every score and every (date, word) pair of the files, in file order,
      skipping the files that do not exist; the first file that fails ends
      the run. */
  function Gathered(outs: seq<FileOutcome>): Result<FileOut, string>
    decreases |outs|
  {
    if |outs| == 0 then Success(FileOut([], []))
    else
      var n := |outs| - 1;
      match Gathered(outs[..n])
      case Failure(e) => Failure(e)
      case Success(acc) =>
        match outs[n]
        case None => Success(acc)
        case Some(Failure(e)) => Failure(e)
        case Some(Success(out)) => Success(FileOut(acc.scores + out.scores, acc.words + out.words))
  }

  /** main's outcome on the files, with or without --deduplicate. */
  function RunSpec(files: seq<Option<seq<Row>>>, strptime: Strptime, deduplicate: bool): Outcome {
    match Gathered(FileOutcomes(files, strptime))
    case Failure(e) => FileFailed(e)
    case Success(all) =>
      var words := FirstOccurrences(all.words, WordKey);
      var dups := Duplicated(all.scores, ScoreKey);
      if dups == {} then Done(all.scores, words)
      else if deduplicate then Done(FirstOccurrences(all.scores, ScoreKey), words)
      else DuplicateScores(dups)
  }

  // ---------------------------------------------------------------------
  // What main promises

  /** Gathering succeeds exactly when every file that exists is processed
      without error. */
  lemma {:induction false} GatheredSucceeds(outs: seq<FileOutcome>)
    ensures Gathered(outs).Success? <==> forall i | 0 <= i < |outs| && outs[i].Some? :: outs[i].value.Success?
    decreases |outs|
  {
    if |outs| > 0 {
      var n := |outs| - 1;
      var t := outs[..n];
      GatheredSucceeds(t);
      assert forall i | 0 <= i < n :: t[i] == outs[i];
    }
  }

  /** Every gathered score, and every gathered (date, word) pair, comes from
      a file that exists. */
  lemma {:induction false} GatheredFrom(outs: seq<FileOutcome>, s: Score, w: (string, string))
    requires Gathered(outs).Success?
    ensures s in Gathered(outs).value.scores ==>
              exists i | 0 <= i < |outs| :: outs[i].Some? && outs[i].value.Success? && s in outs[i].value.value.scores
    ensures w in Gathered(outs).value.words ==>
              exists i | 0 <= i < |outs| :: outs[i].Some? && outs[i].value.Success? && w in outs[i].value.value.words
    decreases |outs|
  {
    if |outs| > 0 {
      var n := |outs| - 1;
      var t := outs[..n];
      GatheredFrom(t, s, w);
      assert forall i | 0 <= i < n :: t[i] == outs[i];
    }
  }

  /** Whatever main emits holds no two scores with the same (player, game,
      date), so scores_user_game_date_unique holds, and no (date, word)
      pair twice. */
  lemma {:induction false} RunKeysDistinct(files: seq<Option<seq<Row>>>, strptime: Strptime, deduplicate: bool)
    ensures var r := RunSpec(files, strptime, deduplicate);
            r.Done? ==> DistinctKeys(r.scores, ScoreKey) && DistinctKeys(r.words, WordKey)
  {
    var g := Gathered(FileOutcomes(files, strptime));
    if g.Success? {
      FirstOccurrencesKeys(g.value.words, WordKey);
      FirstOccurrencesKeys(g.value.scores, ScoreKey);
      DuplicatedNone(g.value.scores, ScoreKey);
    }
  }

  /** With --deduplicate main keeps the first score per key and the first
      of each starting word, whether or not there were duplicates. */
  lemma {:induction false} RunDeduplicated(files: seq<Option<seq<Row>>>, strptime: Strptime)
    requires Gathered(FileOutcomes(files, strptime)).Success?
    ensures var all := Gathered(FileOutcomes(files, strptime)).value;
            RunSpec(files, strptime, true)
            == Done(FirstOccurrences(all.scores, ScoreKey), FirstOccurrences(all.words, WordKey))
  {
    var all := Gathered(FileOutcomes(files, strptime)).value;
    DuplicatedNone(all.scores, ScoreKey);
    if Duplicated(all.scores, ScoreKey) == {} {
      FirstOccurrencesOfDistinct(all.scores, ScoreKey);
    }
  }

  /** Without --deduplicate main refuses the run exactly when two gathered
      scores share a key, and names each key that two scores share. */
  lemma {:induction false} RunRefused(files: seq<Option<seq<Row>>>, strptime: Strptime, k: ScoreKeyT)
    requires Gathered(FileOutcomes(files, strptime)).Success?
    ensures var all := Gathered(FileOutcomes(files, strptime)).value;
            (RunSpec(files, strptime, false).DuplicateScores? <==> !DistinctKeys(all.scores, ScoreKey))
            && (RunSpec(files, strptime, false).DuplicateScores? ==>
                  (k in RunSpec(files, strptime, false).keys
                   <==> exists i, j | 0 <= i < j < |all.scores| ::
                          ScoreKey(all.scores[i]) == k && ScoreKey(all.scores[j]) == k))
  {
    var all := Gathered(FileOutcomes(files, strptime)).value;
    DuplicatedNone(all.scores, ScoreKey);
    DuplicatedSpec(all.scores, ScoreKey, k);
  }

  // ---------------------------------------------------------------------
  // main

  /** A failure stays the outcome of every longer list of files. */
  lemma {:induction false} GatheredFailureSticks(outs: seq<FileOutcome>, k: nat, j: nat)
    requires k <= j <= |outs| && Gathered(outs[..k]).Failure?
    ensures Gathered(outs[..j]) == Gathered(outs[..k])
    decreases j
  {
    if j > k {
      GatheredFailureSticks(outs, k, j - 1);
      assert outs[..j][..j - 1] == outs[..j - 1];
    }
  }

  /** The loop over one file's (date, word) pairs, with the seen set. */
  method MergeWords(all: seq<(string, string)>, seen: set<(string, string)>,
                    ghost before: seq<(string, string)>, ws: seq<(string, string)>)
    returns (all': seq<(string, string)>, seen': set<(string, string)>)
    requires all == FirstOccurrences(before, WordKey) && seen == Keys(before, WordKey)
    ensures all' == FirstOccurrences(before + ws, WordKey) && seen' == Keys(before + ws, WordKey)
  {
    all', seen' := all, seen;
    assert before + ws[..0] == before;
    for j := 0 to |ws|
      invariant all' == FirstOccurrences(before + ws[..j], WordKey)
      invariant seen' == Keys(before + ws[..j], WordKey)
    {
      var prev := before + ws[..j];
      assert before + ws[..j + 1] == prev + [ws[j]];
      KeysSnoc(prev, ws[j], WordKey);
      FirstOccurrencesSnoc(prev, ws[j], WordKey);
      var (d, w) := ws[j];
      if (d, w) !in seen' {
        seen' := seen' + {(d, w)};
        all' := all' + [(d, w)];
      }
    }
    assert ws[..|ws|] == ws;
  }

  /** The gathered scores, and the gathered (date, word) pairs kept once each. */
  function Merged(outs: seq<FileOutcome>): Result<FileOut, string> {
    match Gathered(outs)
    case Failure(e) => Failure(e)
    case Success(all) => Success(FileOut(all.scores, FirstOccurrences(all.words, WordKey)))
  }

  /** main's loop over the files: process every file that exists, stop at
      the first error. */
  method GatherFiles(files: seq<Option<seq<Row>>>, strptime: Strptime) returns (r: Result<FileOut, string>)
    ensures r == Merged(FileOutcomes(files, strptime))
  {
    var allScores: seq<Score> := [];
    var allWords: seq<(string, string)> := [];
    var seen: set<(string, string)> := {};
    ghost var words: seq<(string, string)> := [];
    ghost var outs := FileOutcomes(files, strptime);
    for i := 0 to |files|
      invariant Gathered(outs[..i]) == Success(FileOut(allScores, words))
      invariant allWords == FirstOccurrences(words, WordKey)
      invariant seen == Keys(words, WordKey)
    {
      assert outs[..i + 1][..i] == outs[..i];
      if files[i].None? {
        assert outs[i] == None;
        continue;
      }
      var out := ProcessFile(files[i].value, strptime);
      assert outs[i] == Some(out);
      if out.Failure? {
        GatheredFailureSticks(outs, i + 1, |outs|);
        assert outs[..|outs|] == outs;
        return Failure(out.error);
      }
      allScores := allScores + out.value.scores;
      allWords, seen := MergeWords(allWords, seen, words, out.value.words);
      words := words + out.value.words;
    }
    assert outs[..|outs|] == outs;
    return Success(FileOut(allScores, allWords));
  }

  /** main: gather the files, then check the keys of the scores. */
  method Run(files: seq<Option<seq<Row>>>, strptime: Strptime, deduplicate: bool) returns (r: Outcome)
    ensures r == RunSpec(files, strptime, deduplicate)
  {
    var gathered := GatherFiles(files, strptime);
    if gathered.Failure? {
      return FileFailed(gathered.error);
    }
    var allScores := gathered.value.scores;
    var dups := DuplicateKeys(allScores, ScoreKey);
    if dups != {} {
      if deduplicate {
        allScores := Deduplicate(allScores, ScoreKey);
      } else {
        return DuplicateScores(dups);
      }
    }
    return Done(allScores, gathered.value.words);
  }
}
