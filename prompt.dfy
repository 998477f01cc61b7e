/** The chat messages the critique is asked with: a fixed system prompt and a user prompt
    template with six placeholders. Chat messages are the role/content records sent to the
    chat completion service. */
module Prompt {
  import opened Errors
  import opened StringTemplate

  /** The content of a message: a plain string, or a `string.Template` still to be filled. */
  datatype Content = Str(text: string) | Template(source: string)

  datatype Message = Message(role: string, content: Content)

  const SystemPrompt: string :=
    "\nYou are a grumpy classical composer who can't stand popular music. You roast \n"
    + "pop songs, writing critiques that are funny, witty, and harsh. You can also \n"
    + "think of yourself as Simon Cowell. You're a tough critic.\n"

  // The user prompt is written below as the text between its placeholders.

  /** Everything before `$moods`. */
  const UserIntro: string :=
    "\nWrite a critique for a song with the " + "musical characteristics / tags below. For \n"
    + "your critique, also consider the theme " + "of the song and the lyrics. Sprinkle \n"
    + "a few funny metaphors.\n\n- moods: "
  const GenresLine: string := "\n- genres: "
  const InstrumentsLine: string := "\n- instruments: "
  const VoiceLine: string := "\n- voice: "
  const TempoLine: string := "\n- tempo: "
  const LyricsStartMarker: string := "[lyrics start here]"
  const LyricsEndMarker: string := "[lyrics end here]"
  const LyricsStart: string := "\n\n" + LyricsStartMarker + "\n"
  const LyricsEnd: string := "\n" + LyricsEndMarker + "\n"

  /** USER_PROMPT. */
  const UserPrompt: string :=
    UserIntro + "$moods" + (GenresLine + "$genres" + (InstrumentsLine + "$instruments"
    + (VoiceLine + "$voice" + (TempoLine + "$tempo" + (LyricsStart + "$lyrics" + LyricsEnd)))))

  /** The placeholders of USER_PROMPT, in the order they occur. */
  const PromptKeys: seq<string> := ["moods", "genres", "instruments", "voice", "tempo", "lyrics"]

  /** `chat_gpt_messages`: the system message, then the user message holding the template. */
  const ChatGptMessages: seq<Message> :=
    [Message("system", Str(SystemPrompt)), Message("user", Template(UserPrompt))]

  /** Two messages: the system message holding the fixed text, then the user message
      holding the template. */
  lemma ChatGptMessagesShape()
    ensures |ChatGptMessages| == 2
    ensures ChatGptMessages[0].role == "system" && ChatGptMessages[0].content == Str(SystemPrompt)
    ensures ChatGptMessages[1].role == "user" && ChatGptMessages[1].content == Template(UserPrompt)
  {
  }

  /** USER_PROMPT with the six values put in place of its placeholders. */
  function FilledUserPrompt(moods: string, genres: string, instruments: string, voice: string,
                            tempo: string, lyrics: string): (prompt: string)
  {
    UserIntro + moods + (GenresLine + genres + (InstrumentsLine + instruments
    + (VoiceLine + voice + (TempoLine + tempo + (LyricsStart + lyrics + LyricsEnd)))))
  }

  /** The literal parts of USER_PROMPT, in order. */
  const UserPromptTexts: seq<string> :=
    [UserIntro, GenresLine, InstrumentsLine, VoiceLine, TempoLine, LyricsStart, LyricsEnd]

  lemma IntroHasNoDollar()
    ensures '$' !in UserIntro
  {
    NoDollarA(); NoDollarB(); NoDollarC(); NoDollarD(); NoDollarE();
  }

  // The pieces of UserIntro, one fact each. The split has no meaning of its own: it only
  // keeps each proof within the solver's resource limit.
  lemma NoDollarA() ensures '$' !in "\nWrite a critique for a song with the " {}
  lemma NoDollarB() ensures '$' !in "musical characteristics / tags below. For \n" {}
  lemma NoDollarC() ensures '$' !in "your critique, also consider the theme " {}
  lemma NoDollarD() ensures '$' !in "of the song and the lyrics. Sprinkle \n" {}
  lemma NoDollarE() ensures '$' !in "a few funny metaphors.\n\n- moods: " {}

  /** Weaving values into the literal parts of USER_PROMPT gives the filled prompt. */
  lemma WeaveUserPrompt(vs: seq<string>)
    requires |vs| == |UserPromptTexts| - 1
    ensures Weave(UserPromptTexts, vs) == FilledUserPrompt(vs[0], vs[1], vs[2], vs[3], vs[4], vs[5])
  {
    WeaveSeven(UserIntro, GenresLine, InstrumentsLine, VoiceLine, TempoLine, LyricsStart, LyricsEnd, vs);
  }

  /** Weaving six values into seven texts, written out. */
  lemma WeaveSeven(t0: string, t1: string, t2: string, t3: string, t4: string, t5: string,
                   t6: string, vs: seq<string>)
    requires |vs| == 6
    ensures Weave([t0, t1, t2, t3, t4, t5, t6], vs) ==
      t0 + vs[0] + (t1 + vs[1] + (t2 + vs[2] + (t3 + vs[3] + (t4 + vs[4] + (t5 + vs[5] + t6)))))
  {
    var ts := [t0, t1, t2, t3, t4, t5, t6];
    assert ts[1..][1..] == ts[2..] && ts[2..][1..] == ts[3..] && ts[3..][1..] == ts[4..];
    assert ts[4..][1..] == ts[5..] && ts[5..][1..] == ts[6..];
    assert vs[1..][1..] == vs[2..] && vs[2..][1..] == vs[3..] && vs[3..][1..] == vs[4..];
    assert vs[4..][1..] == vs[5..] && vs[5..][1..] == vs[6..];
    var w5 := t5 + vs[5] + t6;
    var w4 := t4 + vs[4] + w5;
    var w3 := t3 + vs[3] + w4;
    var w2 := t2 + vs[2] + w3;
    var w1 := t1 + vs[1] + w2;
    assert Weave(ts[5..], vs[5..]) == w5;
    assert Weave(ts[4..], vs[4..]) == w4;
    assert Weave(ts[3..], vs[3..]) == w3;
    assert Weave(ts[2..], vs[2..]) == w2;
    assert Weave(ts[1..], vs[1..]) == w1;
  }

  /** No literal part of USER_PROMPT holds a '$'. */
  lemma UserPromptTextsHaveNoDollar()
    ensures forall i :: 0 <= i < |UserPromptTexts| ==> '$' !in UserPromptTexts[i]
  {
    IntroHasNoDollar();
    assert '$' !in LyricsStartMarker && '$' !in LyricsEndMarker;
  }

  /** USER_PROMPT is the filled prompt whose values are the placeholders themselves. */
  lemma UserPromptIsFilled()
    ensures UserPrompt == FilledUserPrompt("$moods", "$genres", "$instruments", "$voice",
                                           "$tempo", "$lyrics")
  {
  }

  /** The placeholders `$moods` ... `$lyrics`, in the order they occur. */
  lemma DollarsOfPromptKeys()
    ensures Dollars(PromptKeys) == ["$moods", "$genres", "$instruments", "$voice", "$tempo", "$lyrics"]
  {
    var ds := Dollars(PromptKeys);
    assert ds[0] == "$moods" && ds[1] == "$genres" && ds[2] == "$instruments";
    assert ds[3] == "$voice" && ds[4] == "$tempo" && ds[5] == "$lyrics";
  }

  /** The placeholder names are identifiers, and each literal part after a placeholder
      starts with a line break. */
  lemma UserPromptSeparators()
    ensures forall i :: 0 <= i < |PromptKeys| ==> IsIdentifier(PromptKeys[i])
    ensures forall i :: 1 <= i < |UserPromptTexts| ==>
      UserPromptTexts[i] != [] && UserPromptTexts[i][0] == '\n'
  {
    forall i | 0 <= i < |PromptKeys| ensures IsIdentifier(PromptKeys[i]) {
    }
  }

  /** USER_PROMPT is its literal parts woven with the six placeholders `$moods` ...
      `$lyrics`, each literal part after a placeholder starts with a line break, and no
      literal part holds a '$'. So every '$' of the template begins one of the six
      placeholders, each of which occurs once, and there is no `$$` and no `${...}`. */
  lemma UserPromptStructure()
    ensures UserPrompt == Weave(UserPromptTexts, Dollars(PromptKeys))
    ensures forall i :: 0 <= i < |UserPromptTexts| ==> '$' !in UserPromptTexts[i]
    ensures forall i :: 0 <= i < |PromptKeys| ==> IsIdentifier(PromptKeys[i])
    ensures forall i :: 1 <= i < |UserPromptTexts| ==>
      UserPromptTexts[i] != [] && UserPromptTexts[i][0] == '\n'
  {
    UserPromptTextsHaveNoDollar();
    UserPromptSeparators();
    UserPromptIsFilled();
    DollarsOfPromptKeys();
    WeaveUserPrompt(Dollars(PromptKeys));
  }

  /** Filling USER_PROMPT: with all six keys present the result is the prompt text with each
      value in its place; otherwise KeyError for the first key missing, in the order the
      placeholders occur. */
  lemma SubstituteUserPrompt(mapping: map<string, string>)
    ensures Substitute(UserPrompt, mapping) ==
      if forall k :: k in PromptKeys ==> k in mapping then
        Ok(FilledUserPrompt(mapping["moods"], mapping["genres"], mapping["instruments"],
                            mapping["voice"], mapping["tempo"], mapping["lyrics"]))
      else Err(KeyError(FirstMissing(PromptKeys, mapping)))
  {
    UserPromptStructure();
    SubstituteWoven(UserPromptTexts, PromptKeys, 0, mapping);
    if forall k :: k in PromptKeys ==> k in mapping {
      WeaveUserPrompt(Lookup(PromptKeys, mapping));
    }
  }

  /** In the filled prompt the lyrics stand verbatim between the line that starts them and
      the line that ends them, at the very end of the prompt. */
  lemma LyricsBetweenMarkers(moods: string, genres: string, instruments: string, voice: string,
                             tempo: string, lyrics: string)
    ensures exists head :: FilledUserPrompt(moods, genres, instruments, voice, tempo, lyrics) ==
                           head + (LyricsStart + lyrics + LyricsEnd)
  {
    var t := LyricsStart + lyrics + LyricsEnd;
    Regroup(UserIntro + moods, GenresLine + genres, InstrumentsLine + instruments,
            VoiceLine + voice, TempoLine + tempo, t);
  }

  /** Right-nested concatenation regrouped so that its last part stands alone. */
  lemma Regroup(b0: string, b1: string, b2: string, b3: string, b4: string, t: string)
    ensures b0 + (b1 + (b2 + (b3 + (b4 + t)))) == (b0 + b1 + b2 + b3 + b4) + t
  {
    assert b3 + (b4 + t) == (b3 + b4) + t;
    assert b2 + ((b3 + b4) + t) == (b2 + b3 + b4) + t;
    assert b1 + ((b2 + b3 + b4) + t) == (b1 + b2 + b3 + b4) + t;
  }
}
