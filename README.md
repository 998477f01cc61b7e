# musiccritic core in Dafny

musiccritic critiques a song. Pretrained classifiers tag the audio with moods, genres,
instruments, voice and tempo. Those tags and the song's lyrics fill a chat prompt, and a
hosted language model writes a humorous critique from it. This project models the program's
own logic around the models and proves properties of it:

- `ScoreToLabel` (`score_to_label.dfy`): `ScoreToLabelConverter`. It argsorts a score
  vector, keeps the slice `[-top_n:]`, reverses it and looks each index up in the label
  list. numpy's default argsort is not stable, so every selection property is proved for
  any order that argsorts the scores (`IsArgsort`). `Argsort` shows one such order exists.
- `StringTemplate` (`string_template.dfy`): Python's `string.Template.substitute` as the
  program uses it. It covers `$$`, `$name`, `${name}`, invalid placeholders (ValueError),
  missing names (KeyError), one left-to-right pass, and values that are never rescanned.
- `Prompt` (`prompt.dfy`): `SYSTEM_PROMPT`, `USER_PROMPT` and `chat_gpt_messages`, with
  their exact text, and what filling the user template produces.
- `PromptPreparation` (`prompt_preparer.dfy`): `ChatGPTPromptPreparer.prepare`. It copies
  the stored messages, looks up message 1, reads the five analysis entries in keyword
  order, substitutes and overwrites message 1's content in the copy.
- `MusicAnalysis` (`music_analyzers.dfy`): `MusicAnalyzer` as a name with an analysis
  function (`musiccritic/musicanalysis/musicanalyzer.py:13-14`), and
  `MusicAnalyzers.analyze`. That method loads the audio once, then runs every analyzer in
  list order and stores each output under the analyzer's name.
- `Pipeline` (`pipeline.dfy`): the five analyzer names the program registers, and the proof
  that their analysis fills exactly the entries the prompt reads.
- `Errors` (`errors.dfy`): the Python exceptions the core can raise, and a `Result` type.

Python exceptions are `Err` values, in the order the interpreter would raise them.

`top_n == 0` selects every index, not none: `[-0:]` is the whole array. The model follows the
code here and proves it (`TopNSelectsAllWhenZeroOrLarge`). A negative `top_n` drops that
many of the lowest-scoring indices, also as the slice does. The program itself only uses 3,
4, 6 and 1.

## Model

| member | source | states |
|---|---|---|
| ScoreToLabel.Argsort | musiccritic/musicanalysis/scoretolabelconverter.py:63 | the result is a permutation of the score indices along which the scores never decrease |
| ScoreToLabel.SelectTopN | musiccritic/musicanalysis/scoretolabelconverter.py:53-66 | `_get_top_n_indices` on the argsort numpy returned, for any argsort order; its length is all indices for top_n 0, min(top_n, n) for positive top_n, max(0, n + top_n) for negative top_n; the selection lemmas below state its contents |
| ScoreToLabel.ConvertTopN | musiccritic/musicanalysis/scoretolabelconverter.py:50-51 | for any argsort order numpy may return: succeeds iff every index that order selects is below the label count; the only failure is IndexError; on success the i-th label is labels[indices[i]], with the same length |
| ScoreToLabel.TopNIndicesDistinctInRange | musiccritic/musicanalysis/scoretolabelconverter.py:63-66 | selected indices are pairwise distinct and lie in [0, \|scores\|) |
| ScoreToLabel.TopNIndicesDescending | musiccritic/musicanalysis/scoretolabelconverter.py:63-65 | scores read along the selection never increase, for any tie order |
| ScoreToLabel.TopNDominatesRest | musiccritic/musicanalysis/scoretolabelconverter.py:63-64 | an index that is not selected scores no higher than any selected index |
| ScoreToLabel.TopNSelectsAllWhenZeroOrLarge | musiccritic/musicanalysis/scoretolabelconverter.py:64 | with top_n 0 or top_n at least the score count, every index is selected |
| ScoreToLabel.ArgsortsNotSmallerAt | musiccritic/musicanalysis/scoretolabelconverter.py:63 | two argsorts of the same scores have equal scores at every position |
| ScoreToLabel.TopNScoresIgnoreTieOrder | musiccritic/musicanalysis/scoretolabelconverter.py:63-65 | the scores of the selection are the same whichever argsort numpy returns; only the order among ties can differ |
| ScoreToLabel.ConvertTopNSucceeds | musiccritic/musicanalysis/scoretolabelconverter.py:50-51 | for any argsort order, with at least as many labels as scores, conversion never raises, and it returns one label per selected index |
| StringTemplate.SubstituteFrom | musiccritic/chatgptpromptpreparer.py:39-46 | the scan of `substitute`; it carries no contract of its own: SubstituteText, SubstituteNamed, SubstituteBraced, SubstituteInvalid and SubstituteEscape below state one step of it each, and ValueErrorFollowsDollar where an error points |
| StringTemplate.Substitute | musiccritic/chatgptpromptpreparer.py:39-46 | `Template(t).substitute(mapping)`; a ValueError always reports an index of the template just after a '$' |
| StringTemplate.ValueErrorFollowsDollar | musiccritic/chatgptpromptpreparer.py:39-46 | from any start index, a ValueError's index lies within the scanned text, just after one of its '$' characters |
| StringTemplate.SubstituteText | musiccritic/chatgptpromptpreparer.py:39-46 | text without '$' is copied verbatim, and the scan goes on after it |
| StringTemplate.SubstituteNamed | musiccritic/chatgptpromptpreparer.py:39-46 | `$name` (longest identifier) becomes the mapped value, or KeyError(name) stops the scan |
| StringTemplate.SubstituteBraced | musiccritic/chatgptpromptpreparer.py:39-46 | `${name}` becomes the mapped value, or KeyError(name) stops the scan |
| StringTemplate.SubstituteInvalid | musiccritic/chatgptpromptpreparer.py:39-46 | a '$' followed by neither '$', nor an identifier start, nor '{' + identifier + '}' raises ValueError at the index after it, after any '$'-free text; this includes a trailing '$', `${`, `${}`, `${1}` and an unclosed `${name` |
| StringTemplate.OpensBracedOf | musiccritic/chatgptpromptpreparer.py:39-46 | '{', an identifier and '}' always open the braced placeholder form |
| StringTemplate.OpensBracedName | musiccritic/chatgptpromptpreparer.py:39-46 | conversely, the braced form is '{', the identifier run, '}' |
| StringTemplate.SubstituteEmptyBraces | musiccritic/chatgptpromptpreparer.py:39-46 | `${` and `${}` raise ValueError at index 1, the index after the '$' |
| StringTemplate.SubstituteBracedNonName | musiccritic/chatgptpromptpreparer.py:39-46 | `${1}` raises ValueError at index 1: braces around a non-identifier are not a placeholder |
| StringTemplate.SubstituteUnclosedBrace | musiccritic/chatgptpromptpreparer.py:39-46 | `${a` with no closing brace raises ValueError at index 1 |
| StringTemplate.SubstituteBracedSpace | musiccritic/chatgptpromptpreparer.py:39-46 | `a${b c}` raises ValueError at index 2: the name must be followed by '}' directly, and the index counts the text before the '$' |
| StringTemplate.SubstituteEscape | musiccritic/chatgptpromptpreparer.py:39-46 | text with every '$' doubled substitutes back to the original text |
| StringTemplate.SubstituteRender | musiccritic/chatgptpromptpreparer.py:39-46 | round trip: substituting a template rendered from text and fields gives their expansion, including the KeyError for the first missing field |
| StringTemplate.SubstituteWoven | musiccritic/chatgptpromptpreparer.py:39-46 | one pass: '$'-free texts with `$name` placeholders between them give the texts with the values in place, never rescanned, or KeyError for the first missing name |
| StringTemplate.FirstMissing | musiccritic/chatgptpromptpreparer.py:40-44 | the key returned is missing, and every key before it is present |
| StringTemplate.FirstMissingSameKeys | musiccritic/chatgptpromptpreparer.py:40-44 | which key is missing first depends only on which of the keys are present |
| Prompt.ChatGptMessagesShape | musiccritic/prompt.py:29-32 | two messages: "system" holding SYSTEM_PROMPT as a plain string, then "user" holding the USER_PROMPT template |
| Prompt.UserPromptTextsHaveNoDollar | musiccritic/prompt.py:13-27 | no literal part of USER_PROMPT contains a '$', so there is no `$$` and no `${...}` |
| Prompt.UserPromptStructure | musiccritic/prompt.py:13-27 | USER_PROMPT is its literal parts with `$moods`, `$genres`, `$instruments`, `$voice`, `$tempo`, `$lyrics` between them, each once; every part after a placeholder starts with a line break |
| Prompt.SubstituteUserPrompt | musiccritic/prompt.py:13-27 | filling USER_PROMPT gives the prompt text with each value in its slot when all six keys are present, else KeyError for the first key missing in template order |
| Prompt.LyricsBetweenMarkers | musiccritic/prompt.py:24-26 | the filled prompt ends with the lyrics-start line, the lyrics verbatim and the lyrics-end line |
| PromptPreparation.Arguments | musiccritic/chatgptpromptpreparer.py:39-46 | the keyword arguments have exactly the six prompt keys: the five rendered analysis entries, plus the lyrics as given |
| PromptPreparation.Prepared | musiccritic/chatgptpromptpreparer.py:38-49 | on success, same message count, every message except 1 unchanged, message 1 keeps its role and gets a string; IndexError with fewer than two messages; KeyError for the first missing analysis entry |
| PromptPreparation.PreparedChatGptMessages | musiccritic/chatgptpromptpreparer.py:38-49 | for the program's messages: the system message unchanged and the user prompt filled with the rendered analysis and the lyrics, or KeyError for the first missing entry |
| PromptPreparation.PreparedKeepsLyricsVerbatim | musiccritic/chatgptpromptpreparer.py:39-46 | the lyrics reach the prompt verbatim between their marker lines, even if they contain placeholder text |
| PromptPreparation.PreparedIgnoresExtraKeys | musiccritic/chatgptpromptpreparer.py:40-44 | analysis entries other than the five read do not affect the result |
| PromptPreparation.ChatGptPromptPreparer.constructor | musiccritic/chatgptpromptpreparer.py:23-24 | stores the given messages |
| PromptPreparation.ChatGptPromptPreparer.Prepare | musiccritic/chatgptpromptpreparer.py:26-49 | fills a fresh copy and returns exactly Prepared of the stored messages, which it cannot change, so equal inputs give equal results |
| MusicAnalysis.Aggregate | musiccritic/musicanalysis/musicanalyzers.py:47-50 | the dict `analyze` builds: at most one entry per analyzer; AggregateKeys and AggregateLastWins state its keys and values |
| MusicAnalysis.AggregateKeys | musiccritic/musicanalysis/musicanalyzers.py:47-50 | the result's keys are exactly the analyzer names; no analyzers give an empty result |
| MusicAnalysis.AggregateLastWins | musiccritic/musicanalysis/musicanalyzers.py:49 | the entry under a name is the output, on the audio, of the last analyzer with that name |
| MusicAnalysis.AggregateDistinctNames | musiccritic/musicanalysis/musicanalyzers.py:49 | with distinct names, every analyzer's output is found under its name |
| MusicAnalysis.MusicAnalyzers.constructor | musiccritic/musicanalysis/musicanalyzers.py:23-32 | stores the given analyzers |
| MusicAnalysis.MusicAnalyzers.Analyze | musiccritic/musicanalysis/musicanalyzers.py:34-50 | the audio is loaded once, each analyzer then runs on that same audio in list order, and the result is the aggregate of their outputs by name |
| Pipeline.AnalysisHasPromptKeys | musiccritic/musiccritic.py:73-107 | with the analyzers named "genres", "moods", "instruments", "voice" (musiccritic.py lines 78, 85, 92, 98) and "tempo" (set in musicanalysis/tempoanalyzer.py line 32), in that list order, the analysis has exactly the five entries the prompt reads |
| Pipeline.AnalysisValues | musiccritic/musiccritic.py:73-107 | with those five names in that list order, each registered analyzer's output is the entry under its name |
| Pipeline.PreparedFromAnalysis | musiccritic/musiccritic.py:73-107 | preparing the program's messages from that analysis never fails, and puts the genres, moods, instruments, voice and tempo outputs in their own slots |

## Left out

- Reading the model metadata JSON in `ScoreToLabelConverter.__init__` is left out (file I/O). The converter is given its labels directly.
- Loading and resampling the audio file is left out. `Analyze` takes `loadMonoAudio` as a function parameter.
- The Essentia/TensorFlow analyzers are not modelled: embedding models, classifiers, the float column sum of their predictions and the float rounding of the tempo. Each analyzer is a name plus an abstract function.
- The voice analyzer's factory hard-codes `top_n=1` and never reads `VOICE_TOP_N_LABELS`. The model does not include configuration, so this is only noted here.
- Scores are reals compared with `<`. NaN and other floating-point special values are not modelled.
- The transcription and chat-completion HTTP clients, the `critic` composition, argument parsing, environment variables and logging are left out: they are I/O or calls to hosted services.
- Python's `str()` of analysis values is an abstract `render` function. The formatting of lists inside the prompt is therefore not fixed.
- Messages are role/content records. Extra dict keys, or a message without `"content"`, are not modelled.
- Content that is neither a string nor a `Template` is not modelled.
- StringTemplate.SubstituteFrom reports ValueError as the index after the invalid '$', not as the line and column Python puts in its message.
- Dict insertion order of the analysis is not modelled. The result is a map.
- Both constructors keep a reference to the caller's list in Python, so later changes to that list would be seen through the object. The model stores an immutable copy instead. Nothing in the core depends on this sharing: `prepare` deep-copies the messages and `analyze` only reads the analyzers.
- MusicAnalysis.MusicAnalyzers.Analyze records the order of loading and analyzer calls as a ghost trace. The analyzers are pure functions, so the call order has no effect on the values.
