# Vibe memory assistant, modelled in Dafny

`vector_memory.py` is a chat assistant that gives a language model a long-term memory. It keeps
facts about the user in a Pinecone vector index. On each turn it does five things:

- it fetches the facts most relevant to the query;
- it wraps them and the query into a two-section prompt;
- it shows the model's reply with every `[SAVE_MEMORY]…[/SAVE_MEMORY]` marker deleted;
- it collects the facts inside those markers;
- it upserts each of those facts under an id derived from its text.

On start-up it creates the index if it is missing and seeds it with six facts.

This project models the deterministic logic of that program and proves its properties:

- **`Text`**: the Python string built-ins the program uses. `str.isspace` uses Python's full table of whitespace characters, and `str.strip` removes exactly those. `str.lower` is modelled on ASCII letters only.
- **`Extract`**: the pattern `\[SAVE_MEMORY\](.*?)\[/SAVE_MEMORY\]`, modelled as Python's leftmost, non-overlapping search:
  - the lazy group ends at the first closer;
  - `.` does not match a newline.

  On that one search, `re.sub` (the reply shown) and `re.findall` (the facts) are both modelled.
- **`ExtractLaws`**: the search on replies built from pieces. These are the pass-through cases and replies with one or two marked facts.
- **`ExtractExamples`**: the same laws applied to concrete replies.
- **`Compose`**:
  - the memory block of `retrieve_memories`, with the sentinel when nothing matches;
  - the prompt f-string;
  - parsers for both, as their round-trip partners.
- **`Pinecone`**:
  - a `Client` class whose `indexes` map (index name to records, id to text) is what `create_index` and `upsert` change;
  - `UpsertAll`, the fold that specifies a sequence of upserts, together with its laws.
- **`Vibe`**:
  - input classification;
  - `upsert_memory`, the fact-saving loop and `seed_initial_data` as methods with loops over the client;
  - the seed-only-if-absent setup;
  - the `while True` loop of `main`, proved equal to a specification function `Chat` over the inputs.
  - A `Session` is what a run has done:
    - the records of the index;
    - the prompts sent;
    - the replies shown;
    - the facts saved;
    - whether the user left.
- **`VibeExamples`**: a short worked run. The user gives a name, the reply saves it, and the user leaves.

Things the model takes as parameters or inputs:

- The id of a fact, `str(hash(fact))`, is a parameter `idOf: string -> string`. It is deterministic within one run and otherwise arbitrary.
- Three kinds of values come from outside the program. They are therefore inputs, given by input position:
  - what the user types;
  - the texts of Pinecone's matches for each query;
  - the model's reply to each prompt.

## Model

| member | source | states |
|---|---|---|
| Text.IsSpace | vector_memory.py:88 | The characters `str.isspace` accepts. These are exactly the characters `str.strip()` removes. |
| Text.Lower | vector_memory.py:84 | `str.lower()` on ASCII letters. Every other character is kept as it is. |
| Text.Strip | vector_memory.py:102 | `.strip()`. The result is a slice of the text. Only whitespace is cut on either side. The result neither starts nor ends with whitespace. It is empty exactly when the text is all whitespace. |
| Text.StripTrailing | vector_memory.py:102 | Text that has no whitespace at the front or the back, followed by whitespace, strips back to itself. |
| Extract.FindCloser | vector_memory.py:102 | The lazy `.*?` from a position. A result is a position at or after it where a closer starts. |
| Extract.FindCloserIsFirst | vector_memory.py:102 | The closer found is the first closer and has no newline before it. There is no result exactly when a newline comes before every closer. |
| Extract.MatchAt | vector_memory.py:102 | A match at i needs an opener at i, and its closer comes after the opener. |
| Extract.MatchAtIsMatch | vector_memory.py:102 | `MatchAt` succeeds exactly on a match of the pattern (opener, newline-free text, first closer). It fails when there is none. |
| Extract.Scan | vector_memory.py:102 | The spans found lie in order, without overlap, each from an opener to a closer. |
| Extract.ScanIsLeftmost | vector_memory.py:102 | The spans are Python's leftmost search: no match starts before the first span, each span is the match at its start, and the search resumes at its end. |
| Extract.LeftmostIsUnique | vector_memory.py:102 | Any sequence of spans with the leftmost property is the one the search finds. |
| Extract.RemoveMarkers | vector_memory.py:102 | `re.sub(pattern, '', response_text)`: the reply with every span the search finds deleted, and the text between the spans kept in order. Its laws are `Extract.RemainderIsGaps` and `Extract.ExtractionRoundTrip`. |
| Extract.NewFacts | vector_memory.py:106 | `re.findall(pattern, response_text)`: the group of each span the search finds, leftmost first. Its laws are `Extract.NewFactsAreClean`, `Extract.GroupsCount` and `Extract.ExtractionRoundTrip`. |
| Extract.Cleaned | vector_memory.py:102 | The reply shown neither starts nor ends with whitespace. |
| Extract.NewFactsAreClean | vector_memory.py:106 | Every fact `findall` returns has no newline and no closer inside. |
| Extract.GroupsCount | vector_memory.py:106 | Each span gives exactly one group. |
| Extract.RemainderLength | vector_memory.py:102-106 | The characters `sub` deletes are exactly one opener, one group and one closer per fact. |
| Extract.RemainderIsGaps | vector_memory.py:102 | What `sub` keeps is the pieces between the spans, joined. |
| Extract.WeaveRestores | vector_memory.py:102-106 | Putting the groups back between the kept pieces restores the text. |
| Extract.ExtractionRoundTrip | vector_memory.py:102-106 | `sub` and `findall` split the reply between them. The kept text is the joined pieces, there is one more piece than there are facts, and weaving the facts back in markers gives the reply. |
| Extract.ExtractionAgrees | vector_memory.py:102-106 | `sub` and `findall` use the same leftmost spans. There is one fact per deleted span, and the lengths add up. |
| Extract.NoMatchScansEmpty | vector_memory.py:102-106 | If every opener has a newline before each later closer, the search finds nothing. |
| Extract.NoMatchPassThrough | vector_memory.py:102-106 | In that case no fact is saved, nothing is deleted, and the reply is shown only stripped. |
| ExtractLaws.NotBracketNotMarker | vector_memory.py:102 | No marker starts at a character other than `[`. |
| ExtractLaws.ScanSkips | vector_memory.py:102 | The search steps over text without `[`. |
| ExtractLaws.PlainText | vector_memory.py:102-106 | A reply without `[` passes through: no fact, nothing deleted. |
| ExtractLaws.CloserAt | vector_memory.py:102 | The closer search runs over text with no closer and no newline, and stops at the next closer. |
| ExtractLaws.NotClosedInFact | vector_memory.py:102 | No closer starts inside a clean fact that stands between markers. |
| ExtractLaws.MarkerMatches | vector_memory.py:102-106 | A clean fact between an opener and a closer is a match, with the fact as its group. |
| ExtractLaws.NewlineStopsCloser | vector_memory.py:102 | A newline before any closer makes the closer search fail. |
| ExtractLaws.EndStopsCloser | vector_memory.py:102 | Reaching the end of the reply without a closer makes the closer search fail. |
| ExtractLaws.UnterminatedMarker | vector_memory.py:102-106 | A reply that starts with an opener and has no other `[` after it yields no fact, and the opener stays in the reply. The general case, an opener that no closer follows on its line, is `Extract.NoMatchPassThrough`. |
| ExtractLaws.NoSlashIsClean | vector_memory.py:106 | A fact without a newline and without `/` is clean. |
| ExtractLaws.ScanFindsMarker | vector_memory.py:102-106 | After text without `[`, the first span found is a marked clean fact. |
| ExtractLaws.OneMarkerAt | vector_memory.py:102-106 | One clean marked fact and no other `[`: `findall` gives `[f]`, and `sub` keeps the text on both sides. |
| ExtractLaws.TwoMarkersAt | vector_memory.py:102-106 | Two clean marked facts: `findall` gives `[f, g]` in order, and `sub` keeps the three texts around them. |
| ExtractLaws.OneMarkedFact | vector_memory.py:102-106 | `NewFacts(a + Open + f + Close + c) == [f]` and `RemoveMarkers(...) == a + c` when a and c have no `[`. |
| ExtractLaws.TwoMarkedFacts | vector_memory.py:102-106 | `NewFacts(a + Open + f + Close + b + Open + g + Close + c) == [f, g]` and the text kept is `a + b + c`. This holds for f == g too, so duplicates are kept as separate entries. |
| ExtractExamples.GreetingSavesName | vector_memory.py:102-106 | A greeting with one marker saves the name, and the greeting is shown without the marker and without the space before it. |
| ExtractExamples.TwoFactsInOrder | vector_memory.py:102-106 | Two markers give both facts, in order, and the spaces around them stay. |
| ExtractExamples.EmptyGroup | vector_memory.py:106 | `[SAVE_MEMORY][/SAVE_MEMORY]` gives the empty fact. |
| ExtractExamples.OpenerInsideFact | vector_memory.py:106 | A second opener before the closer belongs to the fact. |
| ExtractExamples.UnterminatedKept | vector_memory.py:102-106 | An opener without a closer is shown as typed and saves nothing. |
| Compose.JoinLines | vector_memory.py:137 | `"\n".join`: the lines with one newline between neighbours and none after the last. |
| Compose.RenderMemories | vector_memory.py:136-138 | `retrieve_memories`'s result: one `"- "` line per matched text, in order, or `"No relevant memories found."` when nothing matched. |
| Compose.ContextPrompt | vector_memory.py:95 | The prompt f-string: `[MEMORY CONTEXT]`, a newline, the block, a blank line, `[CURRENT QUERY]`, a newline and the raw input. |
| Compose.Bullets | vector_memory.py:137 | There is one line per memory. |
| Compose.RenderStartsWithBullet | vector_memory.py:136-137 | A block with memories starts with `"- "`. |
| Compose.SentinelIffEmpty | vector_memory.py:136-138 | The block is `"No relevant memories found."` exactly when there are no matches. |
| Compose.SplitJoin | vector_memory.py:137 | Splitting a `"\n"`-join of newline-free lines at newlines gives the lines back. |
| Compose.Unbullet | vector_memory.py:137 | A line is a bullet exactly when it starts with `"- "`, and the bullet of the rest is the line. |
| Compose.RenderRoundTrip | vector_memory.py:136-138 | Parsing the block gives back the memory texts, in order, when no text holds a newline. |
| Compose.RenderLines | vector_memory.py:137 | For newline-free texts, the lines of a block are `"- "` plus each text, in order, one per memory, with no trailing line. |
| Compose.RenderIsSafe | vector_memory.py:136-138 | For newline-free texts, a block holds no blank line and does not end with a newline. |
| Compose.PromptRoundTrip | vector_memory.py:95 | Parsing the prompt gives back its block and its query, for any safe block. |
| Compose.PromptEndsWithQuery | vector_memory.py:95 | The prompt starts with `[MEMORY CONTEXT]\n` and ends with the raw query. |
| Compose.PromptCarriesMemories | vector_memory.py:95-98 | For newline-free memory texts, the query and the memory texts can be read back intact from the prompt. |
| Pinecone.UpsertAll | vector_memory.py:109-110 | The records after upserting the facts one after another, each under the id of its text. Line 129 is one such upsert, and lines 145-146 loop the same way. |
| Pinecone.UpsertAllSnoc | vector_memory.py:109-110 | Upserting one more fact replaces the value at its id. |
| Pinecone.UpsertAllAppend | vector_memory.py:109-110 | Upserting two batches is upserting them one after the other. |
| Pinecone.UpsertAllFrame | vector_memory.py:129 | The ids after the upserts are the old ids plus the facts' ids. Every other record is unchanged. |
| Pinecone.UpsertAllStores | vector_memory.py:129 | Each record stays under its own id. Every fact's id is present. With distinct ids, each fact is stored as itself. |
| Pinecone.LastWriteWins | vector_memory.py:129 | The last fact upserted is the one stored under its id. |
| Pinecone.UpsertAllIdempotent | vector_memory.py:129 | Upserting the same facts again changes nothing, so identical text leaves one record. |
| Pinecone.UpsertAllGrowth | vector_memory.py:129 | Each fact adds at most one record. |
| Pinecone.Client.constructor | vector_memory.py:52 | The client holds the account's existing indexes. |
| Pinecone.Client.Names | vector_memory.py:59 | `list_indexes().names()`: the names of the indexes that exist. |
| Pinecone.Client.CreateIndex | vector_memory.py:61-69 | A new, empty index under a name not in use. Nothing else changes. |
| Pinecone.Client.Upsert | vector_memory.py:129 | One record under the id in the named index. Nothing else changes. |
| Vibe.Classify | vector_memory.py:84-89 | An input is skipped exactly when it is all whitespace. An exit is a four-character input that is not blank, so the exit test looks at the input before stripping. Every query has non-empty stripped text. |
| Vibe.ClassifyExamples | vector_memory.py:84-89 | "exit", "QUIT" and "Exit" end the loop. " exit" is a query. "" and "  \t" are skipped. |
| Vibe.UpsertMemory | vector_memory.py:126-129 | One upsert under `idOf(fact)` in the assistant's index. No other index changes. |
| Vibe.SaveFacts | vector_memory.py:109-110 | The facts are upserted in order, as `UpsertAll` specifies. No other index changes. |
| Vibe.SeedInitialData | vector_memory.py:140-147 | The six initial facts are upserted in order. |
| Vibe.Bootstrap | vector_memory.py:59-73 | The indexes after setup. An absent `vibe-memory` index is created and holds the six initial facts; an existing one is left as it is. |
| Vibe.SetupIndex | vector_memory.py:59-73 | Seeding happens exactly when the index was absent. The result is `Bootstrap`. |
| Vibe.BootstrapLaws | vector_memory.py:59-73 | After setup the index exists. Other indexes are untouched. An existing index is left as it is. A second setup changes nothing. |
| Vibe.SeededIndex | vector_memory.py:36-43 | A new index holds exactly the initial facts' ids, each record under its own id. With distinct ids, each initial fact is stored. |
| Vibe.TurnStep | vector_memory.py:83-110 | One pass of the loop body. After the exit nothing changes. An exit input sets `exited`. A blank input changes nothing. A query adds its prompt and its cleaned reply, and saves and upserts the reply's facts in order. The lemmas `Vibe.TurnStepAfterExit`, `Vibe.TurnStepExit`, `Vibe.TurnStepSkip` and `Vibe.TurnStepQuery` give these branches one at a time. |
| Vibe.Chat | vector_memory.py:82-110 | The session after the first n inputs: the start for none, one `TurnStep` more for each input after that (through `Vibe.After` and `Vibe.Pass`). `Vibe.ChatNext` states the one-step unfolding. |
| Vibe.ChatLoop | vector_memory.py:82-110 | The loop gives the session `Chat` specifies for all the inputs. The index holds that session's records, and no other index changes. |
| Vibe.Turn | vector_memory.py:83-110 | One pass of the loop body takes the session of the first i inputs to the session of the first i + 1. |
| Vibe.Respond | vector_memory.py:92-110 | The prompt is built from the block and the query. The reply is shown cleaned. Its facts are returned and upserted in order. |
| Vibe.Assistant | vector_memory.py:59-110 | `main`: setup seeds exactly when the index is absent, then the loop runs from the set-up index. |
| Vibe.ChatStaysExited | vector_memory.py:84-86 | After the exit, later inputs change nothing. |
| Vibe.ChatStep | vector_memory.py:84-110 | What input k does to the session, by case. |
| Vibe.ChatRecords | vector_memory.py:107-110 | After any number of inputs, the index holds its start records with all facts saved so far upserted, in the order saved. |
| Vibe.ChatTranscript | vector_memory.py:98-106 | One prompt is sent per reply shown, and every saved fact is clean. |
| VibeExamples.IntroduceAndLeave | vector_memory.py:82-110 | This run sends one prompt with the sentinel block, shows the greeting clean, saves and stores the name fact, then ends at "exit" without reading further input. |

## Left out

- `normalize_vector` and `get_embedding` (vector_memory.py:114-124). They are floating-point normalisation around a network call. Vectors are not stored in the model: a record is an id and its text.
- `retrieve_memories`'s query (vector_memory.py:133-134). Similarity ranking and the `top_k` cap belong to the Pinecone service. The texts of the matches are an input to each turn.
- The Gemini chat session and `send_message` (vector_memory.py:80, 98). Each reply is an input, so the chat history the service keeps is not modelled.
- Console output, `load_dotenv`, `os.getenv` and API keys (vector_memory.py:7-17, 47-56). These are I/O and configuration. The prompts sent and the replies shown are recorded in the session instead of printed.
- The `try`/`except` around the Pinecone client (vector_memory.py:51-56): the program prints the error and returns early when the client cannot be made. `Vibe.Assistant` starts once the client exists.
- `ServerlessSpec`, the dimension and the metric of `create_index` (vector_memory.py:61-69). They describe vectors, which are not modelled.
- Pinecone.Client.CreateIndex: requires the name not to be in use, because the service refuses a duplicate. The program calls it only after checking.
- Failing external calls. The loop body has no `try` (vector_memory.py:92-110), so an exception ends `main`. That exception can come from `get_embedding` (lines 123, 128, 133), `index.query` (line 134), `send_message` (line 98) or `index.upsert` (line 129). The model assumes every external call returns. `Vibe.SaveFacts` and `Vibe.Respond` always store every fact of a reply. The crash path is not modelled, including a reply whose facts were only partly upserted when the call failed. The same holds for seeding (lines 145-146).
- Vibe.ChatLoop: the model ends when the inputs run out. In the program, `console.input` would raise at end of input.
- Cross-run stability of ids. Python randomises `hash` of a string per process, so `idOf` is only fixed within one run. `SetupIndex`'s "a second setup changes nothing" speaks about the index name, not about ids.
- Vibe.Classify: the exit case is stated one way only (an exit is four characters and not blank). Which inputs are exits, the lowered "exit" or "quit", is shown on examples in `Vibe.ClassifyExamples`, since stating it in general would only repeat the test.
- Text.Lower: lowers ASCII letters only. Python lowers all of Unicode. The exit test is unaffected: no other character lowers to a letter of "exit" or "quit".
- Compose.RenderRoundTrip: requires memory texts without newlines, and so do `Compose.RenderLines`, `Compose.RenderIsSafe` and `Compose.PromptCarriesMemories`. A text with a newline renders as more than one line, as it does in the program, so the block cannot be split back into texts. A text that ends with a newline makes the block end with one: `RenderMemories(["a\n"])` is `"- a\n"`.
- The content of the system prompt (vector_memory.py:20-33), beyond the marker syntax it asks for.

## Notes

- A later opener does not stop the lazy group `(.*?)`. The group runs to the first closer, unless a newline comes first. So `[SAVE_MEMORY]a[SAVE_MEMORY]b[/SAVE_MEMORY]` saves the single fact `a[SAVE_MEMORY]b`, and the whole span is deleted. `ExtractExamples.OpenerInsideFact` states this case.
