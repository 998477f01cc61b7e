/** Running every analyzer of a song on its audio and collecting the results by name. */
module MusicAnalysis {

  /** A `MusicAnalyzer`: its `analyzer_name` and what its `analyze` computes from the audio.
      The models behind the analyzers are not part of this model; each is a function. */
  datatype Analyzer<!A, V> = Analyzer(name: string, analyze: A -> V)

  /** What `analyze` does outside of building its result, in the order it happens. */
  datatype Event<A> =
    | LoadAudio(songPath: string)          // `load_mono_audio(song_path)`
    | RunAnalyzer(index: nat, audio: A)    // the analyzer at `index` of the list, on `audio`

  /** The result dict after the analyzers have run in list order, each writing its output
      under its name; a later analyzer overwrites an earlier one of the same name. */
  function Aggregate<A, V>(analyzers: seq<Analyzer<A, V>>, audio: A): (analysis: map<string, V>)
    ensures |analysis| <= |analyzers|
  {
    if analyzers == [] then map[]
    else
      var last := analyzers[|analyzers| - 1];
      Aggregate(analyzers[..|analyzers| - 1], audio)[last.name := last.analyze(audio)]
  }

  /** The analyzers run one after another, in list order, each on the same audio. */
  function Runs<A, V>(analyzers: seq<Analyzer<A, V>>, audio: A): (r: seq<Event<A>>)
    ensures |r| == |analyzers|
  {
    seq(|analyzers|, i requires 0 <= i < |analyzers| => RunAnalyzer(i, audio))
  }

  /** The result holds exactly one entry per distinct analyzer name; with no analyzers it
      is empty. */
  lemma {:induction false} AggregateKeys<A, V>(analyzers: seq<Analyzer<A, V>>, audio: A)
    ensures forall k :: k in Aggregate(analyzers, audio) <==>
                        exists i :: 0 <= i < |analyzers| && analyzers[i].name == k
    ensures analyzers == [] ==> Aggregate(analyzers, audio) == map[]
  {
    if analyzers != [] {
      var n := |analyzers| - 1;
      var front := analyzers[..n];
      var last := analyzers[n];
      AggregateKeys(front, audio);
      assert Aggregate(analyzers, audio) == Aggregate(front, audio)[last.name := last.analyze(audio)];
      forall k | k in Aggregate(analyzers, audio)
        ensures exists i :: 0 <= i < |analyzers| && analyzers[i].name == k
      {
        if k == last.name {
          assert analyzers[n].name == k;
        } else {
          assert k in Aggregate(front, audio);
          var i :| 0 <= i < |front| && front[i].name == k;
          assert analyzers[i].name == k;
        }
      }
      forall k | exists i :: 0 <= i < |analyzers| && analyzers[i].name == k
        ensures k in Aggregate(analyzers, audio)
      {
        var i :| 0 <= i < |analyzers| && analyzers[i].name == k;
        if i < n {
          assert front[i].name == k;
        }
      }
    }
  }

  /** The entry under a name is the output of the last analyzer of that name on the
      audio. */
  lemma {:induction false} AggregateLastWins<A, V>(analyzers: seq<Analyzer<A, V>>, audio: A, i: nat)
    requires i < |analyzers|
    requires forall j :: i < j < |analyzers| ==> analyzers[j].name != analyzers[i].name
    ensures analyzers[i].name in Aggregate(analyzers, audio)
    ensures Aggregate(analyzers, audio)[analyzers[i].name] == analyzers[i].analyze(audio)
  {
    var n := |analyzers| - 1;
    if i < n {
      var front := analyzers[..n];
      assert front[i] == analyzers[i];
      AggregateLastWins(front, audio, i);
    }
  }

  /** When the names are pairwise distinct, every analyzer's output is found under its
      name. */
  lemma AggregateDistinctNames<A, V>(analyzers: seq<Analyzer<A, V>>, audio: A)
    requires forall i, j :: 0 <= i < j < |analyzers| ==> analyzers[i].name != analyzers[j].name
    ensures forall i :: 0 <= i < |analyzers| ==>
              (analyzers[i].name in Aggregate(analyzers, audio) &&
               Aggregate(analyzers, audio)[analyzers[i].name] == analyzers[i].analyze(audio))
  {
    forall i | 0 <= i < |analyzers|
      ensures analyzers[i].name in Aggregate(analyzers, audio) &&
              Aggregate(analyzers, audio)[analyzers[i].name] == analyzers[i].analyze(audio)
    {
      AggregateLastWins(analyzers, audio, i);
    }
  }

  /** `MusicAnalyzers`: the analyzers of a song, run together. */
  class MusicAnalyzers<!A, V> {
    const analyzers: seq<Analyzer<A, V>>

    constructor (analyzers: seq<Analyzer<A, V>>)
      ensures this.analyzers == analyzers
    {
      this.analyzers := analyzers;
    }

    /** `analyze`: loads the audio once, then runs each analyzer on it in list order and
        records its output under its name. `loadMonoAudio` stands for reading and
        resampling the audio file. The ghost `events` trace is this method's own
        bookkeeping of the calls it makes, not something the program observes or returns. */
    method Analyze(songPath: string, loadMonoAudio: string -> A)
      returns (analysis: map<string, V>, ghost events: seq<Event<A>>)
      ensures analysis == Aggregate(analyzers, loadMonoAudio(songPath))
      ensures events == [LoadAudio(songPath)] + Runs(analyzers, loadMonoAudio(songPath))
    {
      var audio := loadMonoAudio(songPath);
      events := [LoadAudio(songPath)];
      analysis := map[];
      var i := 0;
      while i < |analyzers|
        invariant i <= |analyzers|
        invariant analysis == Aggregate(analyzers[..i], audio)
        invariant events == [LoadAudio(songPath)] + Runs(analyzers[..i], audio)
      {
        var analyzer := analyzers[i];
        assert analyzers[..i + 1][..i] == analyzers[..i];
        assert Runs(analyzers[..i + 1], audio) == Runs(analyzers[..i], audio) + [RunAnalyzer(i, audio)];
        events := events + [RunAnalyzer(i, audio)];
        analysis := analysis[analyzer.name := analyzer.analyze(audio)];
        i := i + 1;
      }
      assert analyzers[..i] == analyzers;
    }
  }
}
