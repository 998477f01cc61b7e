/** How the program wires the analyzers to the prompt: the analysis of a song holds exactly
    the entries the prompt reads. */
module Pipeline {
  import opened Errors
  import opened Prompt
  import opened PromptPreparation
  import opened MusicAnalysis

  /** The names of the analyzers the program registers, in the order it lists them. */
  const AnalyzerNames: seq<string> := ["genres", "moods", "instruments", "voice", "tempo"]

  /** No two registered analyzers share a name. */
  lemma AnalyzerNamesDistinct()
    ensures forall i, j :: 0 <= i < j < |AnalyzerNames| ==> AnalyzerNames[i] != AnalyzerNames[j]
  {
  }

  /** With the analyzers the program registers, the analysis of a song fills every
      placeholder of the user prompt: each analyzer's rendered output lands in the slot of
      its name, and the lyrics in theirs. */
  lemma PreparedFromAnalysis<A, V>(analyzers: seq<Analyzer<A, V>>, audio: A, lyrics: string,
                                   render: V -> string)
    requires |analyzers| == |AnalyzerNames|
    requires forall i :: 0 <= i < |analyzers| ==> analyzers[i].name == AnalyzerNames[i]
    ensures Prepared(ChatGptMessages, Aggregate(analyzers, audio), lyrics, render) ==
      Ok([Message("system", Str(SystemPrompt)),
          Message("user", Str(FilledUserPrompt(
            render(analyzers[1].analyze(audio)), render(analyzers[0].analyze(audio)),
            render(analyzers[2].analyze(audio)), render(analyzers[3].analyze(audio)),
            render(analyzers[4].analyze(audio)), lyrics)))])
  {
    var analysis := Aggregate(analyzers, audio);
    AnalysisHasPromptKeys(analyzers, audio);
    AnalysisValues(analyzers, audio);
    PreparedFilled(analysis, lyrics, render,
                   render(analyzers[1].analyze(audio)), render(analyzers[0].analyze(audio)),
                   render(analyzers[2].analyze(audio)), render(analyzers[3].analyze(audio)),
                   render(analyzers[4].analyze(audio)));
  }

  /** Each registered analyzer's output is the entry under its name. */
  lemma AnalysisValues<A, V>(analyzers: seq<Analyzer<A, V>>, audio: A)
    requires |analyzers| == |AnalyzerNames|
    requires forall i :: 0 <= i < |analyzers| ==> analyzers[i].name == AnalyzerNames[i]
    ensures forall i :: 0 <= i < |analyzers| ==>
              (AnalyzerNames[i] in Aggregate(analyzers, audio) &&
               Aggregate(analyzers, audio)[AnalyzerNames[i]] == analyzers[i].analyze(audio))
  {
    AnalyzerNamesDistinct();
    AggregateDistinctNames(analyzers, audio);
  }

  /** The analysis of a song has an entry for exactly the five names the prompt reads. */
  lemma AnalysisHasPromptKeys<A, V>(analyzers: seq<Analyzer<A, V>>, audio: A)
    requires |analyzers| == |AnalyzerNames|
    requires forall i :: 0 <= i < |analyzers| ==> analyzers[i].name == AnalyzerNames[i]
    ensures forall k :: k in Aggregate(analyzers, audio) <==> k in AnalysisKeys
  {
    AggregateKeys(analyzers, audio);
    NamesAreKeys();
    forall k ensures k in Aggregate(analyzers, audio) <==> k in AnalyzerNames {
      if k in AnalyzerNames {
        var i :| 0 <= i < |AnalyzerNames| && AnalyzerNames[i] == k;
        assert analyzers[i].name == k;
      }
    }
  }

  /** The registered names are the analysis entries the prompt reads. */
  lemma NamesAreKeys()
    ensures forall k :: k in AnalyzerNames <==> k in AnalysisKeys
  {
  }
}
