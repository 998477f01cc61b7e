/** Filling the chat messages with the analysis of a song and its lyrics. */
module PromptPreparation {
  import opened Errors
  import opened StringTemplate
  import opened Prompt

  /** The analysis entries read for the template, in the order the keyword arguments of the
      substitution are evaluated. */
  const AnalysisKeys: seq<string> := ["moods", "genres", "instruments", "voice", "tempo"]

  /** The keyword arguments of the substitution: each analysis entry as text, and the
      lyrics as they are. `render` stands for Python's `str` of an analysis value. */
  function Arguments<V>(analysis: map<string, V>, lyrics: string, render: V -> string): (m: map<string, string>)
    requires forall k :: k in AnalysisKeys ==> k in analysis
    ensures forall k :: k in m <==> k in PromptKeys
    ensures m["lyrics"] == lyrics
    ensures forall k :: k in AnalysisKeys ==> m[k] == render(analysis[k])
  {
    map["moods" := render(analysis["moods"]), "genres" := render(analysis["genres"]),
        "instruments" := render(analysis["instruments"]), "voice" := render(analysis["voice"]),
        "tempo" := render(analysis["tempo"]), "lyrics" := lyrics]
  }

  /** What `prepare` returns or raises for the stored messages. Looking up message 1 comes
      first (IndexError), then its `substitute` attribute (AttributeError on a plain string),
      then the keyword arguments in order (KeyError), then the substitution itself. On
      success the copy differs from the stored messages only in the content of message 1. */
  function Prepared<V>(messages: seq<Message>, analysis: map<string, V>, lyrics: string,
                       render: V -> string): (r: Result<seq<Message>>)
    ensures r.Ok? ==> |r.value| == |messages| >= 2
    ensures r.Ok? ==> forall i :: 0 <= i < |messages| && i != 1 ==> r.value[i] == messages[i]
    ensures r.Ok? ==> r.value[1].role == messages[1].role && r.value[1].content.Str?
    ensures r.Ok? ==> messages[1].content.Template?
    ensures r.Ok? ==> forall k :: k in AnalysisKeys ==> k in analysis
    ensures |messages| < 2 ==> r == Err(IndexError)
    ensures |messages| >= 2 && messages[1].content.Template? &&
            (exists k :: k in AnalysisKeys && k !in analysis) ==>
            r == Err(KeyError(FirstMissing(AnalysisKeys, analysis)))
  {
    if |messages| < 2 then Err(IndexError)
    else if !messages[1].content.Template? then Err(AttributeError)
    else if exists k :: k in AnalysisKeys && k !in analysis then
      Err(KeyError(FirstMissing(AnalysisKeys, analysis)))
    else
      match Substitute(messages[1].content.source, Arguments(analysis, lyrics, render))
      case Err(e) => Err(e)
      case Ok(filled) => Ok(messages[1 := Message(messages[1].role, Str(filled))])
  }

  /** The stored chat messages filled from an analysis with all five entries, whose
      rendered values are given. */
  lemma PreparedFilled<V>(analysis: map<string, V>, lyrics: string, render: V -> string,
                          moods: string, genres: string, instruments: string, voice: string,
                          tempo: string)
    requires forall k :: k in AnalysisKeys ==> k in analysis
    requires render(analysis["moods"]) == moods && render(analysis["genres"]) == genres
    requires render(analysis["instruments"]) == instruments && render(analysis["voice"]) == voice
    requires render(analysis["tempo"]) == tempo
    ensures Prepared(ChatGptMessages, analysis, lyrics, render) ==
      Ok([Message("system", Str(SystemPrompt)),
          Message("user", Str(FilledUserPrompt(moods, genres, instruments, voice, tempo, lyrics)))])
  {
    var m := Arguments(analysis, lyrics, render);
    var filled := FilledUserPrompt(moods, genres, instruments, voice, tempo, lyrics);
    assert forall k :: k in PromptKeys ==> k in m;
    assert m["moods"] == moods && m["genres"] == genres && m["instruments"] == instruments;
    assert m["voice"] == voice && m["tempo"] == tempo && m["lyrics"] == lyrics;
    SubstituteUserPrompt(m);
    ChatGptMessagesShape();
    PreparedTemplate(ChatGptMessages, analysis, lyrics, render, UserPrompt, filled);
    assert ChatGptMessages[1 := Message("user", Str(filled))] ==
           [Message("system", Str(SystemPrompt)), Message("user", Str(filled))];
  }

  /** Prepared when every step before the substitution succeeds and the substitution
      gives `filled`. */
  lemma PreparedTemplate<V>(messages: seq<Message>, analysis: map<string, V>, lyrics: string,
                            render: V -> string, source: string, filled: string)
    requires |messages| >= 2 && messages[1].content == Template(source)
    requires forall k :: k in AnalysisKeys ==> k in analysis
    requires Substitute(source, Arguments(analysis, lyrics, render)) == Ok(filled)
    ensures Prepared(messages, analysis, lyrics, render) ==
            Ok(messages[1 := Message(messages[1].role, Str(filled))])
  {
  }

  /** The stored chat messages filled as the program sets them up: the system message as
      it is and the user prompt with the rendered analysis and the lyrics in place, or
      KeyError for the first of the five analysis entries that is missing. */
  lemma PreparedChatGptMessages<V>(analysis: map<string, V>, lyrics: string, render: V -> string)
    ensures Prepared(ChatGptMessages, analysis, lyrics, render) ==
      if forall k :: k in AnalysisKeys ==> k in analysis then
        Ok([Message("system", Str(SystemPrompt)),
            Message("user", Str(FilledUserPrompt(render(analysis["moods"]), render(analysis["genres"]),
                                                 render(analysis["instruments"]), render(analysis["voice"]),
                                                 render(analysis["tempo"]), lyrics)))])
      else Err(KeyError(FirstMissing(AnalysisKeys, analysis)))
  {
    ChatGptMessagesShape();
    if forall k :: k in AnalysisKeys ==> k in analysis {
      PreparedFilled(analysis, lyrics, render, render(analysis["moods"]), render(analysis["genres"]),
                     render(analysis["instruments"]), render(analysis["voice"]),
                     render(analysis["tempo"]));
    }
  }

  /** Substitution is a single pass: the lyrics reach the prompt verbatim, between the
      line that opens them and the line that closes them, even when they contain text that
      looks like a placeholder. */
  lemma PreparedKeepsLyricsVerbatim<V>(analysis: map<string, V>, lyrics: string, render: V -> string)
    requires forall k :: k in AnalysisKeys ==> k in analysis
    ensures Prepared(ChatGptMessages, analysis, lyrics, render).Ok?
    ensures exists head :: Prepared(ChatGptMessages, analysis, lyrics, render).value[1].content ==
                           Str(head + (LyricsStart + lyrics + LyricsEnd))
  {
    var moods, genres := render(analysis["moods"]), render(analysis["genres"]);
    var instruments, voice := render(analysis["instruments"]), render(analysis["voice"]);
    var tempo := render(analysis["tempo"]);
    PreparedFilled(analysis, lyrics, render, moods, genres, instruments, voice, tempo);
    LyricsBetweenMarkers(moods, genres, instruments, voice, tempo, lyrics);
  }

  /** Entries of the analysis other than the five read are ignored. */
  lemma PreparedIgnoresExtraKeys<V>(messages: seq<Message>, a: map<string, V>, b: map<string, V>,
                                    lyrics: string, render: V -> string)
    requires forall k :: k in AnalysisKeys ==> (k in a <==> k in b)
    requires forall k :: k in AnalysisKeys && k in a ==> a[k] == b[k]
    ensures Prepared(messages, a, lyrics, render) == Prepared(messages, b, lyrics, render)
  {
    if exists k :: k in AnalysisKeys && k !in a {
      var k :| k in AnalysisKeys && k !in a;
      var i :| 0 <= i < |AnalysisKeys| && AnalysisKeys[i] == k;
      FirstMissingSameKeys(AnalysisKeys, a, b);
    } else {
      ArgumentsAgree(a, b, lyrics, render);
    }
  }

  /** Analyses that agree on the five entries give the same keyword arguments. */
  lemma ArgumentsAgree<V>(a: map<string, V>, b: map<string, V>, lyrics: string, render: V -> string)
    requires forall k :: k in AnalysisKeys ==> k in a && k in b && a[k] == b[k]
    ensures Arguments(a, lyrics, render) == Arguments(b, lyrics, render)
  {
    assert a["moods"] == b["moods"] && a["genres"] == b["genres"];
    assert a["instruments"] == b["instruments"] && a["voice"] == b["voice"];
    assert a["tempo"] == b["tempo"];
  }

  /** `ChatGPTPromptPreparer`: holds the chat messages to fill. */
  class ChatGptPromptPreparer {
    const chatGptMessages: seq<Message>

    constructor (chatGptMessages: seq<Message>)
      ensures this.chatGptMessages == chatGptMessages
    {
      this.chatGptMessages := chatGptMessages;
    }

    /** `prepare`: fills a copy of the stored messages; the stored messages stay as they
        are, so equal inputs give equal results. */
    method Prepare<V>(analysis: map<string, V>, lyrics: string, render: V -> string)
      returns (r: Result<seq<Message>>)
      ensures r == Prepared(chatGptMessages, analysis, lyrics, render)
    {
      var n := |chatGptMessages|;
      var copy := new Message[n](i requires 0 <= i < n => chatGptMessages[i]);
      if n < 2 {
        return Err(IndexError);
      }
      var content := copy[1].content;
      if !content.Template? {
        return Err(AttributeError);
      }
      if exists k :: k in AnalysisKeys && k !in analysis {
        return Err(KeyError(FirstMissing(AnalysisKeys, analysis)));
      }
      var filled := Substitute(content.source, Arguments(analysis, lyrics, render));
      if filled.Err? {
        return Err(filled.error);
      }
      copy[1] := Message(copy[1].role, Str(filled.value));
      assert copy[..] == chatGptMessages[1 := Message(chatGptMessages[1].role, Str(filled.value))];
      r := Ok(copy[..]);
    }
  }
}
