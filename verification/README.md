# A verified model of the translator's core

The translator is a Korean–English translation service. Signed-in users whose addresses are on an
allow-list send text to HTTP functions. These functions keep each user's sessions and messages in a
realtime database and route every translation to OpenAI, Anthropic or Google by the model's name.
A React web client shows sessions as pairs of a source and its translations. It also offers a
grammar check of English text and a benchmark that runs one text through several models.

This project models that core in Dafny: the pieces below, each with contracts and lemmas.

- The shared constants, the provider routing by model prefix, and the allow-list middleware with
  its configuration parser.
- The request schemas, over a small JSON value type.
- The database service: one user's sessions, messages, the translation context and the message
  content reads.
- The prompt builders.
- The translate orchestrator, the grammar-check and benchmark functions, and the get-session
  function.
- On the client:
  - the translate hook, with its request body;
  - the message input shared by the chat and grammar pages;
  - the grammar hook and page;
  - the benchmark page's selection, result map, loading counter and display order;
  - the two realtime hooks;
  - the chat view's grouping, retranslation and size warning;
  - the language detector;
  - the two stores and the locale loader.

Each module follows one source file or a few closely related ones. The code has these parts:
- `wrappers.dfy`, `strings.dfy`, `json.dfy`, `sorting.dfy` and `listing.dfy` hold the helpers: options, failures, trimming and splitting, JSON values, a stable insertion sort, and the order in which an object's keys are listed.
- `store.dfy` is the database service.
- `http.dfy` holds the request and response shapes the functions share.
- The other files hold one module each.

The model leaves these things outside, as parameters:
- the clock and the keys the database hands out;
- the model calls;
- the clipboard and the network.

Each function takes them as arguments, so a contract holds whatever they return.
Asynchronous steps become a sequence of pure steps in the order the code awaits them.

## Model

| member | source | states |
|---|---|---|
| Strings.Trim | functions/src/lib/config.ts:26 | trimming removes exactly the whitespace at both ends: the result is empty exactly for whitespace and otherwise starts and ends with non-whitespace |
| Strings.TrimIdempotent | functions/src/lib/config.ts:26 | trimming a trimmed text changes nothing |
| Strings.Split | functions/src/lib/config.ts:25 | splitting at a character gives one more piece than there are occurrences, none holding the character, and joining them gives the text back |
| Strings.SplitJoin | functions/src/lib/config.ts:25 | splitting the join of pieces free of the separator gives back those pieces |
| Strings.IndexOf | functions/src/functions/grammar-check.ts:19 | -1 exactly when the pattern does not occur; otherwise its first occurrence |
| Strings.ToLower | functions/src/lib/config.ts:26 | the ASCII capitals A to Z become their lower-case letters and every other character is kept, position by position |
| Sorting.SortBy | functions/src/functions/sessions/get.ts:44 | the sorted array is a permutation of the input, ordered by the key |
| AllowList.ConfiguredEmails | functions/src/lib/config.ts:22 | a non-empty environment value wins over the deployment parameter; an unset or empty one falls back to it |
| AllowList.NormalizeEach | functions/src/lib/config.ts:26 | each comma-separated piece is trimmed and its ASCII letters lower-cased, one result per piece in the same order |
| AllowList.DropEmpty | functions/src/lib/config.ts:27 | exactly the non-empty pieces are kept, in their original order |
| AllowList.NormalizedIsCanonical | functions/src/lib/config.ts:26 | a kept normalised address is its own trim and its own lower-case form |
| AllowList.KeptAreCanonical | functions/src/lib/config.ts:24-27 | every address on the parsed list is non-empty, trimmed and lower-case |
| AllowList.ParseAllowedEmails | functions/src/lib/config.ts:21-28 | an empty configuration gives no addresses; otherwise the list is the split, normalised, non-empty pieces, at most one more than the commas, all canonical |
| AllowList.ConfiguredAddressListed | functions/src/lib/config.ts:21-28 | every non-blank configured piece, whatever its case and surrounding blanks, ends up on the list |
| AllowList.Decide | functions/src/middleware/allowedEmails.ts:14-29 | an empty list lets every user through; otherwise a user passes exactly when the address, ASCII lower-cased, is listed, and is refused with 403 and the fixed message |
| AllowList.ConfiguredUserPasses | functions/src/middleware/allowedEmails.ts:22-29 | a user whose address is configured, with its ASCII letters in any case, passes the middleware |
| AllowList.DecisionIgnoresCase | functions/src/middleware/allowedEmails.ts:22 | two addresses equal up to ASCII case get the same decision |
| Constants.ModelsEnumerated | functions/src/shared/constants.ts:1-10 | the seven identifiers are distinct and the model list names every model exactly once |
| Constants.ParseModel | functions/src/shared/constants.ts:1-10 | the model enum accepts exactly the seven identifiers and returns the model so named |
| Constants.ParseModelName | functions/src/shared/constants.ts:1-10 | every model's identifier parses back to that model |
| Constants.ProviderOf | functions/src/shared/constants.ts:15-19 | Claude exactly for a `claude-` prefix, Gemini exactly for a `gemini-` prefix, OpenAI exactly for neither |
| Constants.ModelProviders | functions/src/shared/constants.ts:1-19 | each of the seven models routes to the provider its prefix names |
| Constants.ProviderCensus | functions/src/shared/constants.ts:1-19 | three models route to OpenAI, two to Claude, two to Gemini, and the default model is an OpenAI model |
| Constants.ParseStyle | functions/src/shared/constants.ts:22 | the style enum accepts exactly the two listed options and names the value it returns |
| Constants.ParseFormality | functions/src/shared/constants.ts:23 | the formality enum accepts exactly the two listed options and names the value it returns |
| Constants.ParseDomain | functions/src/shared/constants.ts:24 | the domain enum accepts exactly the two listed options and names the value it returns |
| Constants.ToneOptionsWellFormed | functions/src/shared/constants.ts:21-41 | each tone axis has two distinct options, every value round-trips through its name, and every default is a listed option |
| Constants.ThresholdsOrdered | functions/src/shared/constants.ts:43-45 | the warning threshold is positive and below the context budget |
| Wrappers.MessageOr | functions/src/functions/translate.ts:174 | an Error contributes its message; any other thrown value gives the fallback |
| Llm.AdapterFor | functions/src/services/llm.ts:34-44 | each provider selects its own adapter |
| Llm.Translate | functions/src/services/llm.ts:34-44 | the outcome is that of the adapter the model's prefix selects, called on the unchanged options, with no retry and no fallback |
| Llm.GenerateSessionMetadata | functions/src/services/llm.ts:46-60 | metadata generation is routed by the same prefix rule to the selected adapter, with the same arguments |
| Llm.RoutesByModel | functions/src/services/llm.ts:34-44 | the three GPT models reach OpenAI, the two Claude models Claude, the two Gemini models Gemini |
| Llm.OnlyRoutedAdapterMatters | functions/src/services/llm.ts:34-60 | replacing the adapters that are not routed to changes neither outcome, so a failure of the routed one reaches the caller unchanged |
| Schemas.ParseTone | shared/src/schemas/translation.ts:4-8 | a tone is accepted exactly when each axis holds one of its options, and the result is the tone the object denotes |
| Schemas.ToneJson | shared/src/schemas/translation.ts:4-8 | the serialised tone denotes that tone |
| Schemas.ToneInUnique | shared/src/schemas/translation.ts:4-8 | an object denotes at most one tone |
| Schemas.ToneRoundTrip | shared/src/schemas/translation.ts:4-8 | decoding a serialised tone gives it back, also with an unknown key beside the axes |
| Schemas.ParseModelJson | shared/src/schemas/translation.ts:14 | the model enum accepts exactly a model identifier and returns that model |
| Schemas.ParseModelOr | functions/src/functions/translate.ts:27 | an absent model becomes the default; a present one must be a model identifier |
| Schemas.ParseToneOr | functions/src/functions/translate.ts:28 | an absent tone becomes the default tone; a present one must be a valid tone |
| Schemas.DecodeCommon | functions/src/functions/translate.ts:24-30 | the fields both translate schemas share are accepted exactly when some request matches them |
| Schemas.ParseTranslateBody | functions/src/functions/translate.ts:23-31 | the server's translate schema accepts a body exactly when it describes a request, and returns that request |
| Schemas.ParseSharedTranslateRequest | shared/src/schemas/translation.ts:10-18 | the shared translate schema accepts a body exactly when it describes a request with model and tone present, and returns that request |
| Schemas.ServerTranslateUnique | functions/src/functions/translate.ts:23-31 | a body describes at most one request |
| Schemas.SharedImpliesServer | functions/src/functions/translate.ts:23-31 | what the shared schema accepts the server schema accepts with the same value, and a body without model or tone is accepted only by the server, with the defaults |
| Schemas.TranslateRequestRoundTrip | shared/src/schemas/translation.ts:10-18 | both translate schemas decode a fully serialised request with non-empty text back to itself |
| Schemas.ParseGrammarRequest | functions/src/shared/schemas/grammar.ts:4-7 | the grammar schema accepts a body exactly when it describes a request, and returns that request |
| Schemas.GrammarRequestCases | functions/src/shared/schemas/grammar.ts:4-7 | empty text is rejected, a missing model becomes the default, an unknown model is rejected, valid text passes unchanged |
| Schemas.ParseModelList | functions/src/functions/benchmark.ts:19 | an array of model identifiers is accepted exactly when every element names a model, and gives those models in order |
| Schemas.ModelsInSplits | functions/src/functions/benchmark.ts:19 | a model list matching a non-empty array matches its head and its tail |
| Schemas.ParseBenchmarkRequest | functions/src/functions/benchmark.ts:16-21 | the benchmark schema accepts a body exactly when it describes a request, and returns that request |
| Schemas.BenchmarkNeedsAModel | functions/src/functions/benchmark.ts:19 | an empty model list is rejected whatever the other fields hold |
| SessionStore.ParseType | functions/src/services/database.ts:70 | a stored type reads back exactly when it is the name of a message type |
| SessionStore.ParseStatus | functions/src/services/database.ts:78 | a stored status reads back exactly when it is the name of a status |
| SessionStore.Put | functions/src/services/database.ts:75-79 | a property is added exactly when its value is defined, and no other property changes |
| SessionStore.MessageFieldsWritten | functions/src/services/database.ts:69-79 | a new message record holds type, content and creation time, and each optional property exactly when it is defined, with its value |
| SessionStore.DecodeMessage | functions/src/services/database.ts:127-131 | a record that reads back as a message stores that message's type, content, creation time and parent |
| SessionStore.RequiredFieldsRead | functions/src/services/database.ts:69-73 | the type, content and creation time written for a message read back as the message's |
| SessionStore.ModelAndToneRead | functions/src/services/database.ts:75-76 | the model and tone written for a message read back as the message's |
| SessionStore.OptionalStringsRead | functions/src/services/database.ts:77-79 | the parent, status and error message written for a message read back as the message's |
| SessionStore.MessageRoundTrip | functions/src/services/database.ts:64-81 | reading back what addMessage wrote gives the message that was written |
| SessionStore.OthersUnchangedTransitive | functions/src/services/database.ts:61 | writes confined to one session compose into a write confined to it |
| SessionStore.PutNode | functions/src/services/database.ts:29 | writing one session's node leaves every other session as it was |
| SessionStore.Touch | functions/src/services/database.ts:34-37 | the timestamp write sets updatedAt and no other session property |
| SessionStore.CreateSession | functions/src/services/database.ts:5-32 | the new node holds description, createdAt and updatedAt equal to the clock reading, and username only when it is truthy, while the returned session carries the metadata as given; no other session changes |
| SessionStore.UpdateSessionTimestamp | functions/src/services/database.ts:34-37 | updatedAt becomes the clock reading, creating a bare node when the session is missing, and nothing else changes |
| SessionStore.MetadataFields | functions/src/services/database.ts:47-49 | exactly the defined metadata properties are written, with their values |
| SessionStore.UpdateSessionMetadata | functions/src/services/database.ts:39-52 | an update with neither property changes nothing; otherwise exactly the defined properties are written and the messages and other sessions are kept |
| SessionStore.AddMessage | functions/src/services/database.ts:55-86 | the message is stored under its fresh key with its record, no other message changes, updatedAt becomes the following clock reading, and the returned message carries the key |
| SessionStore.UpdateFields | functions/src/services/database.ts:103-106 | exactly the defined update properties are written, with their values |
| SessionStore.UpdateMessage | functions/src/services/database.ts:94-110 | the message keeps its key, no other message changes, updatedAt becomes the clock reading, other sessions are kept |
| SessionStore.AddMessageNode | functions/src/services/database.ts:81-83 | the node after addMessage is the old node with the record and the timestamp added |
| SessionStore.UpdateMessageNode | functions/src/services/database.ts:108-109 | the node after updateMessage is the old node with the update merged into the record and the timestamp set |
| SessionStore.UpdateSessionMetadataNode | functions/src/services/database.ts:51 | a non-empty metadata update merges its properties over the stored ones |
| SessionStore.UpdateMessageMerges | functions/src/services/database.ts:103-108 | the updated record has the update's properties with their values and keeps every other stored property |
| SessionStore.UpdateKeepsCreatedAt | functions/src/services/database.ts:103-106 | an update never changes a record's creation time |
| SessionStore.CreatedAtOfFields | functions/src/services/database.ts:72 | a written record's creation time is the message's |
| SessionStore.UpdatedCreatedAt | functions/src/services/database.ts:72-106 | a written message keeps its creation time through any update |
| SessionStore.UpdateMessageIdempotent | functions/src/services/database.ts:94-110 | applying the same update twice with the same clock reading is applying it once |
| SessionStore.MergeKeepsFixedReads | functions/src/services/database.ts:103-106 | an update leaves type, creation time, model, tone and parent reading as before |
| SessionStore.MergeUpdatedReads | functions/src/services/database.ts:103-106 | content, status and error message read as the update's value when given and as before otherwise |
| SessionStore.MergeDecoded | functions/src/services/database.ts:103-108 | a readable record with an update merged in reads back as the typed message with the update applied |
| SessionStore.UpdateMessageDecoded | functions/src/services/database.ts:94-110 | the message read back after updateMessage is the previous message with the update applied |
| SessionStore.SessionWritesKeepWellFormed | functions/src/services/database.ts:5-52 | creating a session and writing session properties keep every stored message readable |
| SessionStore.AddMessageKeepsWellFormed | functions/src/services/database.ts:55-86 | addMessage keeps every stored message readable |
| SessionStore.UpdateMessageKeepsWellFormed | functions/src/services/database.ts:94-110 | updateMessage keeps every stored message readable |
| SessionStore.SnapshotOrderListsEveryKey | functions/src/services/database.ts:123-131 | the ordered snapshot visits every stored message |
| SessionStore.SnapshotMessages | functions/src/services/database.ts:127-131 | the typed messages follow the snapshot order, one per key |
| SessionStore.PairIndices | functions/src/services/database.ts:134-144 | the positions that complete a pair, in increasing order, each an original translation right after a source with content |
| SessionStore.PrefixPairs | functions/src/services/database.ts:134-144 | dropping the last message changes neither which earlier positions complete a pair nor those pairs |
| SessionStore.PairIndicesComplete | functions/src/services/database.ts:137-142 | every position that completes a pair is emitted |
| SessionStore.ContextPairs | functions/src/services/database.ts:133-146 | one pair per emitted position, holding the source's content and the translation's content |
| SessionStore.GetTranslationContext | functions/src/services/database.ts:117-147 | a missing session or empty message list gives no pairs; otherwise the pairs are those of the snapshot in createdAt order |
| SessionStore.ScanPairs | functions/src/services/database.ts:133-146 | the loop emits exactly the pairs of the reference scan |
| SessionStore.ContextPairsChronological | functions/src/services/database.ts:123-144 | the pairs come out in createdAt order of their translations |
| SessionStore.ContextEndsWithLastPair | functions/src/services/database.ts:134-144 | when the last message completes a pair, the context ends with that pair |
| SessionStore.SnapshotEndsWith | functions/src/services/database.ts:123-131 | the last two keys of the snapshot read back as the last two messages written |
| SessionStore.ContextExample | functions/src/services/database.ts:136-142 | a retranslation is skipped and a translation after a non-source is dropped: [A, T1, B, T2 retranslating T1] yields only (A, T1) |
| SessionStore.GetMessageContent | functions/src/services/database.ts:149-160 | a missing message or one without string content gives the empty string; otherwise its stored content |
| SessionStore.ContentAfterWrites | functions/src/services/database.ts:55-160 | a message written by addMessage reads back with its content, and an update's content replaces it |
| TranslatePrompt.StyleDirective | functions/src/prompts/translate.ts:22-26 | each style directive is a single line |
| TranslatePrompt.FormalityDirective | functions/src/prompts/translate.ts:28-32 | each formality directive is a single line |
| TranslatePrompt.DomainDirective | functions/src/prompts/translate.ts:34-38 | each domain directive is a single line |
| TranslatePrompt.StyleSection | functions/src/prompts/translate.ts:40 | the style section opens with its header |
| TranslatePrompt.InstructionSection | functions/src/prompts/translate.ts:44 | the instruction section opens with its header |
| TranslatePrompt.ConciseLines | functions/src/prompts/translate.ts:49-60 | the concise block has eight lines, the header first and the previous translation second, an undefined one joining as the empty line |
| TranslatePrompt.ConciseSection | functions/src/prompts/translate.ts:49-60 | the concise block opens with its header |
| TranslatePrompt.ContextWindow | functions/src/prompts/translate.ts:63-64 | the window is the last five pairs, or all of them when there are fewer |
| TranslatePrompt.ContextSection | functions/src/prompts/translate.ts:66 | the context section opens with its header |
| TranslatePrompt.TextSection | functions/src/prompts/translate.ts:70 | the text section opens with its header |
| TranslatePrompt.InstructionPart | functions/src/prompts/translate.ts:43-45 | the instruction section is present exactly when the instruction trims to something non-empty |
| TranslatePrompt.BodyPart | functions/src/prompts/translate.ts:48-67 | concise mode gives the concise block; otherwise a non-empty context gives the context section; otherwise nothing |
| TranslatePrompt.Sections | functions/src/prompts/translate.ts:17-70 | style first and text last, the instruction second when present, the concise or context section just before the text |
| TranslatePrompt.BuildTranslatePrompt | functions/src/prompts/translate.ts:14-73 | the prompt starts with the style section and ends with the separator and the text section |
| TranslatePrompt.SectionHeaders | functions/src/prompts/translate.ts:40-72 | each section opens with its own header's initial, and the five initials differ, so the sections can be told apart |
| TranslatePrompt.InstructionSectionPresence | functions/src/prompts/translate.ts:43-45 | the instruction section is present exactly when the instruction trims to something non-empty, sits right after the style section and carries the instruction untrimmed |
| TranslatePrompt.ContextSectionPresence | functions/src/prompts/translate.ts:48-67 | in concise mode the concise block is present and the context section absent; otherwise the context section is present exactly when there is context |
| TranslatePrompt.ConcisePromptQuotesPrevious | functions/src/prompts/translate.ts:49-52 | the concise prompt contains the previous translation verbatim |
| TranslatePrompt.ConciseIgnoresContext | functions/src/prompts/translate.ts:48-61 | in concise mode the context has no influence on the prompt |
| TranslatePrompt.ContextWindowSuffix | functions/src/prompts/translate.ts:63-64 | older pairs before five recent ones do not change the window |
| TranslatePrompt.PromptSeesLastFivePairs | functions/src/prompts/translate.ts:61-66 | pairs older than the last five never change the prompt |
| TranslatePrompt.StyleSectionLines | functions/src/prompts/translate.ts:20-40 | the style section splits into its header and exactly one directive line per axis |
| TranslatePrompt.DirectivesDistinguishValues | functions/src/prompts/translate.ts:22-38 | distinct values of an axis give distinct directive lines |
| TranslatePrompt.GetSystemMessages | functions/src/prompts/translate.ts:75-77 | a single system message carrying the system prompt |
| TranslatePrompt.BuildGrammarCheckPrompt | functions/src/prompts/grammar.ts:3-5 | the grammar prompt is the fixed instruction, a blank line, and the text |
| TranslatePrompt.GrammarPromptInjective | functions/src/prompts/grammar.ts:3-5 | distinct texts give distinct grammar prompts |
| TranslatePrompt.GrammarPromptLength | functions/src/prompts/grammar.ts:3-5 | the UTF-16 length of the prompt is that of the prefix plus that of the text |
| TranslateEndpoint.ResolveSession | functions/src/functions/translate.ts:66-72 | without a session id a new session is created under the fresh key with an empty description and the creation time; with one the store is unchanged |
| TranslateEndpoint.WriteSource | functions/src/functions/translate.ts:82-94 | the source message is written exactly when there is no parent message |
| TranslateEndpoint.WriteMessages | functions/src/functions/translate.ts:66-105 | the writes target the resolved session, report a source key exactly when a source was written, always add the translation, and leave the settings alone |
| TranslateEndpoint.Insert2Contents | functions/src/functions/translate.ts:82-105 | adding the two fresh keys keeps every earlier message and adds exactly the new ones |
| TranslateEndpoint.WrittenMessagesExact | functions/src/functions/translate.ts:82-105 | the session's messages after the writes are exactly the earlier ones plus the new records |
| TranslateEndpoint.WrittenKeys | functions/src/functions/translate.ts:82-105 | the writes add the translation key and, exactly when there is no parent, the source key |
| TranslateEndpoint.WrittenRecords | functions/src/functions/translate.ts:83-104 | the new records are the completed source at now and the empty pending translation at now + 1 with the request's model, tone and parent |
| TranslateEndpoint.WrittenKeepsEarlier | functions/src/functions/translate.ts:82-105 | every message the session held before is still there, unchanged |
| TranslateEndpoint.WrittenNewSession | functions/src/functions/translate.ts:67-71 | a new session starts with its creation time and an empty description |
| TranslateEndpoint.WrittenFrame | functions/src/functions/translate.ts:66-105 | the writes touch no other session |
| TranslateEndpoint.WriteMessagesWellFormed | functions/src/functions/translate.ts:82-105 | the writes keep every stored message readable |
| TranslateEndpoint.OptionsFor | functions/src/functions/translate.ts:108-130 | the model call gets the request's fields, the API key and the stored instruction; in concise mode no context and the parent's content, otherwise the stored context |
| TranslateEndpoint.FinalUpdate | functions/src/functions/translate.ts:154-167 | success writes the translation and completed; failure writes error and the thrown message or the fallback |
| TranslateEndpoint.RecordMetadata | functions/src/functions/translate.ts:137-141 | generated metadata is written to the session; a failed generation changes nothing |
| TranslateEndpoint.HandleTranslate | functions/src/functions/translate.ts:40-169 | 405 for a method other than POST, 403 off the allow-list, 400 for an invalid body, none touching the store or calling a model; otherwise 200 with the session id and message keys, the model called on the options built from the store after the writes, and the store left as the writes, the new session's metadata and the finalising update leave it |
| TranslateEndpoint.BeforeFinalise | functions/src/functions/translate.ts:137-144 | the metadata write leaves the session's messages as the writes left them |
| TranslateEndpoint.FinalMessagesContents | functions/src/functions/translate.ts:82-167 | at the end the session holds the earlier messages unchanged, the source, and the pending translation with the outcome merged in |
| TranslateEndpoint.FinalMessagesExact | functions/src/functions/translate.ts:82-167 | the handler leaves exactly those messages under the session |
| TranslateEndpoint.FinalFieldsOfNewSession | functions/src/functions/translate.ts:137-141 | a new session keeps its creation time, and its description is the generated one or stays empty |
| TranslateEndpoint.FinalFieldsExact | functions/src/functions/translate.ts:66-167 | the session's properties at the end are those after the writes, the generated metadata of a new session, and the last updatedAt |
| TranslateEndpoint.NewSessionIffNoSessionId | functions/src/functions/translate.ts:64-72 | a session is created exactly when the request has no session id, under a fresh key; otherwise the given session is used |
| TranslateEndpoint.MetadataRecorded | functions/src/functions/translate.ts:137-141 | a new session's description and username are the generated ones; a failed generation leaves the description empty |
| TranslateEndpoint.FinalisedFrame | functions/src/functions/translate.ts:63-169 | handling a request touches no other session |
| TranslateEndpoint.MessagesWritten | functions/src/functions/translate.ts:82-105 | the earlier messages stay unchanged, the translation is added, and the source exactly when there is no parent |
| TranslateEndpoint.TranslationCreatedAt | functions/src/functions/translate.ts:103 | the translation keeps its creation time now + 1 through finalisation |
| TranslateEndpoint.SourceWritten | functions/src/functions/translate.ts:83-88 | without a parent the source reads back as completed, with the text, created at now |
| TranslateEndpoint.SourceBeforeTranslation | functions/src/functions/translate.ts:87-103 | the source is created strictly before its translation |
| TranslateEndpoint.TranslationFinalised | functions/src/functions/translate.ts:96-167 | the translation reads back as the pending message with the translation and completed on success, or error and the message on failure with the content still empty |
| TranslateEndpoint.ContextEndsWithPendingPair | functions/src/functions/translate.ts:82-113 | the context read after the writes ends with the pair of the text being translated and its still-empty translation |
| TranslateEndpoint.MetadataAndFinalisationCommute | functions/src/functions/translate.ts:137-167 | the metadata write and the finalising write commute |
| GrammarCheck.NonEmpty | functions/src/functions/grammar-check.ts:33 | an empty explanation becomes null; any other is kept |
| GrammarCheck.IndexOfIsFirst | functions/src/functions/grammar-check.ts:19 | the search finds the first occurrence of the separator |
| GrammarCheck.ParseGrammarResponse | functions/src/functions/grammar-check.ts:12-35 | both parts of a reply come out trimmed, and an explanation is never empty |
| GrammarCheck.SplitsAtFirstLong | functions/src/functions/grammar-check.ts:19-20 | with the blank-line separator present, the reply is split at its first occurrence |
| GrammarCheck.SplitsAtFirstShort | functions/src/functions/grammar-check.ts:22-25 | only without the blank-line separator is the reply split at the first short separator |
| GrammarCheck.NoSeparatorWholeReply | functions/src/functions/grammar-check.ts:27-29 | without any separator the whole trimmed reply is the correction and there is no explanation |
| GrammarCheck.LongHoldsShort | functions/src/functions/grammar-check.ts:16-17 | a reply holding the long separator also holds the short one, so the order of the two searches matters |
| GrammarCheck.SeparatorAfterCorrected | functions/src/functions/grammar-check.ts:19 | a correction that is trimmed and has no blank line is followed by the first long separator |
| GrammarCheck.SplitAfterCorrected | functions/src/functions/grammar-check.ts:31-34 | splitting right after the correction gives back both parts, trimmed |
| GrammarCheck.ParseFormatRoundTrip | functions/src/functions/grammar-check.ts:12-35 | a reply formatted from a correction and an explanation is parsed back into exactly them |
| GrammarCheck.ExampleHasNoBlankLine | functions/src/functions/grammar-check.ts:16-17 | one example: the corrected text `a\n---\nb` holds the short separator without holding a blank line |
| GrammarCheck.LongSeparatorTakesPriority | functions/src/functions/grammar-check.ts:19-25 | the long separator wins even when a short one occurs earlier: a correction holding a short separator is kept whole |
| GrammarCheck.HandleGrammarCheck | functions/src/functions/grammar-check.ts:47-79 | 405, 403 and 400 without a model call; otherwise one call with the request's text, model and key, then the split reply with its duration, or a 500 with the error's message |
| GrammarCheck.DefaultModelUsed | functions/src/shared/schemas/grammar.ts:3-6 | a request without a model is checked with the default model |
| BenchmarkEndpoint.BenchmarkOptions | functions/src/functions/benchmark.ts:32-39 | a benchmark call has the request's text, language, model and tone, and no context, instruction or concise mode |
| BenchmarkEndpoint.TranslateWithTiming | functions/src/functions/benchmark.ts:23-51 | never fails: a translation becomes an entry without error, a failure an entry with no translation and the error's message |
| BenchmarkEndpoint.SettledResults | functions/src/functions/benchmark.ts:88-96 | one entry per model in order; a fulfilled call gives its value, a rejected one an entry for that model with zero duration and the rejection's message |
| BenchmarkEndpoint.Settle | functions/src/functions/benchmark.ts:82-86 | every call settles fulfilled with its timed entry |
| BenchmarkEndpoint.HandleBenchmark | functions/src/functions/benchmark.ts:63-98 | 405, 403 and 400 without calls; otherwise 200 with one call and one result per requested model, in request order |
| BenchmarkEndpoint.ResultsFollowModels | functions/src/functions/benchmark.ts:82-98 | each result names the model at its position, and carries an error exactly when that model's call failed |
| BenchmarkEndpoint.FulfilledPassThrough | functions/src/functions/benchmark.ts:88-89 | with every call fulfilled the results are the entries unchanged |
| SessionsGet.Entries | functions/src/functions/sessions/get.ts:40-43 | one entry per listed key, holding that key as its id and that message's fields |
| SessionsGet.MessageArray | functions/src/functions/sessions/get.ts:40-44 | the response array is a permutation of the entries, ordered by creation time |
| SessionsGet.MessageArrayEntries | functions/src/functions/sessions/get.ts:40-44 | an entry is in the array exactly when its id is a stored key and its fields are that message's, and none appears twice |
| SessionsGet.HandleGetSession | functions/src/functions/sessions/get.ts:16-53 | 405 for a method other than GET, 403 off the allow-list, 400 without a session id, none of them reading; otherwise one read of that session: 500 when it fails, 404 when it is missing, 200 with the session's fields and its messages array |
| SessionsGet.MessageArrayInTimeOrder | functions/src/functions/sessions/get.ts:44 | with every message timed, the array goes in non-decreasing creation time |
| SessionsGet.FoundSessionMessages | functions/src/functions/sessions/get.ts:34-49 | a found session's response carries its fields and exactly its stored messages, one entry each, in time order |
| Realtime.NumberAt | web/src/hooks/useRealtimeSessions.ts:52-53 | a stored number is read back as it is |
| Realtime.ListItem | web/src/hooks/useRealtimeSessions.ts:48-54 | a list item has the key as id, the stored username, the description or "" and the two stored times |
| Realtime.SessionList | web/src/hooks/useRealtimeSessions.ts:47-55 | the list is a permutation of the items, newest update first |
| Realtime.SessionListEntries | web/src/hooks/useRealtimeSessions.ts:47-55 | every stored session is listed once, under its key, and nothing else is |
| Realtime.SubscribeSessions | web/src/hooks/useRealtimeSessions.ts:29-33 | without a signed-in user the list is empty and no longer loading; otherwise it waits for the listener |
| Realtime.OnSessionsEvent | web/src/hooks/useRealtimeSessions.ts:39-63 | a missing node gives an empty list, a cancellation an empty list with the error, a snapshot its list; none leaves the list loading |
| Realtime.SessionView | web/src/hooks/useRealtimeSession.ts:48-64 | the open session has the requested id, the stored fields with the description or "", and one message per listed key |
| Realtime.SessionViewMessages | web/src/hooks/useRealtimeSession.ts:49-54 | every stored message of the session is shown once, under its key, and nothing else is |
| Realtime.SubscribeSession | web/src/hooks/useRealtimeSession.ts:31-35 | without a session id or a signed-in user there is no session and nothing loads |
| Realtime.OnSessionEvent | web/src/hooks/useRealtimeSession.ts:41-73 | a session is shown exactly for a snapshot of an existing node; a cancellation carries the error; nothing is left loading |
| Realtime.NoMessagesEmptyList | web/src/hooks/useRealtimeSession.ts:49-54 | a session without messages shows an empty message list |
| ChatView.Typed | web/src/hooks/useRealtimeSession.ts:49-54 | each stored entry becomes the client message with the same id and fields |
| ChatView.StoredSessionTyped | web/src/hooks/useRealtimeSession.ts:48-54 | every entry the realtime hook reads from a store the modelled writes produced can be cast, giving each key's message in key order |
| ChatView.GroupMessages | web/src/components/chat/ChatView.tsx:44-64 | the loop computes the grouping: each source opens a pair that later translations join |
| ChatView.MessagePairs | web/src/components/chat/ChatView.tsx:41-65 | no session gives no pairs; otherwise the messages sorted by creation time, grouped |
| ChatView.PairSources | web/src/components/chat/ChatView.tsx:44-64 | the sources of the pairs, one per pair, in order |
| ChatView.GroupSources | web/src/components/chat/ChatView.tsx:49-62 | the pairs hold exactly the source messages, in order, one pair per source |
| ChatView.LatestSourceCollects | web/src/components/chat/ChatView.tsx:49-62 | each translation joins the pair of the latest source before it |
| ChatView.LeadingTranslationsDropped | web/src/components/chat/ChatView.tsx:55 | translations before every source belong to no pair |
| ChatView.NoSourceNoPairs | web/src/components/chat/ChatView.tsx:55-62 | translations alone form no pair |
| ChatView.EmptyStateIffNoSource | web/src/components/chat/ChatView.tsx:90 | the empty state shows exactly when no session is open or it holds no source message |
| ChatView.SourcesEmpty | web/src/components/chat/ChatView.tsx:50-54 | there are no sources exactly when no message is a source |
| ChatView.FindPair | web/src/components/chat/ChatView.tsx:77 | finds the first pair holding the translation, and none exactly when no pair holds it |
| ChatView.HandleRetranslate | web/src/components/chat/ChatView.tsx:74-83 | a retranslation is asked for exactly when some pair holds the translation, with that pair's source text and the translation's id |
| ChatView.RetranslateUsesItsSource | web/src/components/chat/ChatView.tsx:74-83 | a translation is retranslated from the latest source before it |
| ChatView.Translations | web/src/hooks/useSessionWarning.ts:14 | the translation messages only |
| ChatView.SessionWarning | web/src/hooks/useSessionWarning.ts:9-21 | no session gives size 0 and no warning; the size counts the translations' content, and the warning shows from the threshold on |
| ChatView.ContentLengthAppend | web/src/hooks/useSessionWarning.ts:15 | summed lengths add over a concatenation |
| ChatView.TranslationsAppend | web/src/hooks/useSessionWarning.ts:14 | filtering translations distributes over a concatenation |
| ChatView.SizeAdds | web/src/hooks/useSessionWarning.ts:13-15 | the size of a session split in two is the sum of the parts' sizes |
| ChatView.AppendMessage | web/src/hooks/useSessionWarning.ts:13-20 | a new source leaves the size alone, a new translation adds its length, and the warning never turns off as messages arrive |
| BenchmarkPage.Without | web/src/routes/benchmark.tsx:33 | removes exactly the given model and keeps the rest distinct; a selection without it is returned unchanged |
| BenchmarkPage.WithoutRemovesAt | web/src/routes/benchmark.tsx:33 | in a selection without duplicates, the result is the selection with the model's one position cut out, the others in their order |
| BenchmarkPage.ToggleModel | web/src/routes/benchmark.tsx:31-35 | a selected model is cut out of its position with the others kept in order, another is appended at the end; no model is ever listed twice |
| BenchmarkPage.ToggleTwice | web/src/routes/benchmark.tsx:31-35 | toggling the same model twice restores the selection as a set |
| BenchmarkPage.SelectionDistinct | web/src/routes/benchmark.tsx:25 | the initial selection, every model, lists none twice |
| BenchmarkPage.SetResult | web/src/routes/benchmark.tsx:59-68 | setting a model's result replaces its slot in place, or appends a slot when it has none |
| BenchmarkPage.InitialSlots | web/src/routes/benchmark.tsx:42-43 | one pending slot per selected model and no model twice |
| BenchmarkPage.SetResultSlots | web/src/routes/benchmark.tsx:59-68 | setting a result gives the model a slot and keeps every other model's |
| BenchmarkPage.InitialSlotsInOrder | web/src/routes/benchmark.tsx:42-43 | the initial map lists the models in selection order, all pending |
| BenchmarkPage.HandleRun | web/src/routes/benchmark.tsx:37-58 | nothing runs without text or a selected model; otherwise every slot is pending and one request per model goes out with the trimmed text and the Korean detection |
| BenchmarkPage.CanRunStarts | web/src/routes/benchmark.tsx:78 | an enabled run button always starts a run |
| BenchmarkPage.Complete | web/src/routes/benchmark.tsx:52-68 | a response fills the model's slot with its first result; a failure with an entry holding the error's message |
| BenchmarkPage.Done | web/src/routes/benchmark.tsx:80-85 | the finished slots, a part of the map |
| BenchmarkPage.Pending | web/src/routes/benchmark.tsx:80-85 | every slot it lists is still waiting for its model's answer |
| BenchmarkPage.DonePendingPartition | web/src/routes/benchmark.tsx:80-85 | the finished and the pending slots together are the whole map, each slot exactly once |
| BenchmarkPage.SortedEntries | web/src/routes/benchmark.tsx:80-85 | the displayed entries are a permutation of the map |
| BenchmarkPage.SortedEntriesOrder | web/src/routes/benchmark.tsx:80-85 | finished entries come before pending ones, finished ones by ascending duration |
| BenchmarkPage.SameAllDone | web/src/routes/benchmark.tsx:80-85 | a permutation of finished entries holds finished entries only |
| DetectLanguage.CodeUnits | web/src/lib/detectLanguage.ts:1-4 | a character is one UTF-16 unit below 0x10000 and a surrogate pair above |
| DetectLanguage.Utf16 | web/src/lib/detectLanguage.ts:1-4 | the encoding has the text's UTF-16 length |
| DetectLanguage.AnyHangul | web/src/lib/detectLanguage.ts:1-4 | the pattern matches exactly when some code unit is in a Hangul range |
| DetectLanguage.AnyHangulAppend | web/src/lib/detectLanguage.ts:4 | the scan of a concatenation scans both parts |
| DetectLanguage.CharUnits | web/src/lib/detectLanguage.ts:1 | a character's units hold a Hangul unit exactly when the character is Hangul; surrogates never are |
| DetectLanguage.UnitsOfHangul | web/src/lib/detectLanguage.ts:1-4 | the unit-level scan finds Hangul exactly when some character is Hangul |
| DetectLanguage.IsKorean | web/src/lib/detectLanguage.ts:3-5 | a text is Korean exactly when some character lies in a Hangul block |
| DetectLanguage.KoreanConcat | web/src/lib/detectLanguage.ts:3-5 | a concatenation is Korean exactly when one of its parts is |
| DetectLanguage.AsciiNotKorean | web/src/lib/detectLanguage.ts:1-5 | ASCII text, the empty text included, is never Korean |
| DetectLanguage.WhitespaceNotKorean | web/src/lib/detectLanguage.ts:1-5 | whitespace is never Korean |
| DetectLanguage.KoreanIgnoresWhitespace | web/src/lib/detectLanguage.ts:3-5 | surrounding whitespace does not change whether a text is Korean |
| DetectLanguage.TrimKeepsKorean | web/src/lib/detectLanguage.ts:3-5 | trimming never changes whether a text is Korean |
| DetectLanguage.KoreanExamples | web/src/lib/detectLanguage.ts:1-5 | "안녕" is Korean and "hello" is not |
| BenchmarkPage.StartRun | web/src/routes/benchmark.tsx:40-46 | a run starts loading with one outstanding request per selected model |
| BenchmarkPage.Settled | web/src/routes/benchmark.tsx:59-72 | a settling request fills its slot and lowers the count by one; loading ends exactly when the count reaches zero |
| BenchmarkPage.LoadingUntilAllSettled | web/src/routes/benchmark.tsx:69-72 | loading stays on while fewer requests have settled than were sent and is off once all have, in any order |
| BenchmarkPage.RunEndsWithLastResponse | web/src/routes/benchmark.tsx:37-76 | a run stops loading exactly when the last of its requests settles |
| ClientTranslate.InitialHook | web/src/hooks/useTranslate.ts:10-15 | the hook starts with the given session, the default model and the default tone |
| ClientTranslate.RequestBody | web/src/hooks/useTranslate.ts:17-25 | the body sent holds the text and no isKorean property |
| ClientTranslate.RequestBodyFields | web/src/hooks/useTranslate.ts:19-25 | the body names the model and the tone, and an optional property is sent exactly when it is defined |
| ClientTranslate.RetranslateBody | web/src/hooks/useTranslate.ts:33-38 | a retranslation asks for concise mode under the given parent message |
| ClientTranslate.RequestBodyRejected | web/src/hooks/useTranslate.ts:19-25 | neither translate schema accepts the body the hook sends |
| ClientTranslate.TranslationAlwaysRejected | web/src/hooks/useTranslate.ts:19-25 | as written, an allowed user's translation is answered with 400 and changes nothing |
| ClientTranslate.CorrectedBodyAccepted | web/src/hooks/useTranslate.ts:17-25 | with the Korean detection added, both schemas read the body back as the request the hook means |
| ClientTranslate.CorrectedRetranslate | web/src/hooks/useTranslate.ts:33-38 | a corrected retranslation reaches the server as concise mode under the given parent, in the same session |
| ClientTranslate.OnSuccessArgument | web/src/hooks/useTranslate.ts:26-28 | the success callback gets the response's session id; a failed request calls nothing |
| InputBox.Submit | web/src/components/chat/ChatInput.tsx:34-44 | text besides whitespace with nothing loading is submitted trimmed and the buffer emptied; otherwise nothing happens |
| InputBox.KeyDown | web/src/components/chat/ChatInput.tsx:46-60 | ignored during a composition; Enter without Shift submits exactly as the button does; any other key does nothing |
| InputBox.CompositionStart | web/src/components/chat/ChatInput.tsx:62-64 | a composition begins and the text is untouched |
| InputBox.CompositionEnd | web/src/components/chat/ChatInput.tsx:66-68 | the composition ends and the text is untouched |
| InputBox.Change | web/src/components/chat/ChatInput.tsx:86 | the text area's value becomes the buffer |
| InputBox.Paste | web/src/components/chat/ChatInput.tsx:70-79 | non-empty clipboard text is appended; an empty or unreadable clipboard changes nothing |
| InputBox.DirectionOf | web/src/components/chat/ChatInput.tsx:7 | a direction shows exactly for text besides whitespace, Korean to English exactly for Korean text |
| InputBox.SubmittedIsTrimmed | web/src/components/grammar/GrammarInput.tsx:27-37 | what is submitted is never blank and already trimmed |
| InputBox.SubmitOnce | web/src/components/grammar/GrammarInput.tsx:27-37 | a submission empties the buffer, so submitting again at once does nothing |
| InputBox.EnabledIffSubmits | web/src/components/chat/ChatInput.tsx:34-44 | the button is enabled exactly when pressing it submits something |
| InputBox.EnterAfterComposition | web/src/components/grammar/GrammarInput.tsx:39-61 | Enter during a composition does nothing; after it ends the same key submits |
| InputBox.ShiftEnterNeverSubmits | web/src/components/grammar/GrammarInput.tsx:43 | Shift+Enter never submits |
| InputBox.PasteKeepsPrefix | web/src/components/grammar/GrammarInput.tsx:63-72 | pasting keeps what was typed as a prefix of the buffer |
| GrammarClient.SetModel | web/src/hooks/useGrammarCheck.ts:9 | only the model changes |
| GrammarClient.StartCheck | web/src/hooks/useGrammarCheck.ts:13-19 | a check records the text, clears the result and the error, is pending, and sends the text with the hook's model |
| GrammarClient.FinishCheck | web/src/hooks/useGrammarCheck.ts:19-21 | a response becomes the result with no error; a failure becomes the error and leaves the result as it was; nothing stays pending |
| GrammarClient.Reset | web/src/hooks/useGrammarCheck.ts:26-30 | no result, no source text, nothing pending and no error; the model stays |
| GrammarClient.CheckThenShow | web/src/components/grammar/GrammarView.tsx:30 | a finished check shows its result under its text and the page is no longer empty |
| GrammarClient.ResetEmpties | web/src/hooks/useGrammarCheck.ts:26-30 | after a reset the page is empty and the hook is as it started, apart from the model |
| GrammarClient.PageSubmit | web/src/components/grammar/GrammarView.tsx:17-28 | Korean text raises the warning and is not checked; other text clears it and starts a check of that text |
| GrammarClient.SubmitFromInput | web/src/components/grammar/GrammarView.tsx:17-28 | nothing reaches the page while the input is disabled; a check starts exactly for enabled, non-Korean text, with the trimmed text |
| GrammarClient.NoCheckWhilePending | web/src/components/grammar/GrammarInput.tsx:31 | no other check can start while one is pending |
| GrammarClient.KoreanNeverChecked | web/src/components/grammar/GrammarView.tsx:19-22 | a Korean text never reaches the grammar endpoint |
| TranslationStore.SetCurrentSessionId | web/src/stores/translationStore.ts:19 | only the open session changes |
| TranslationStore.SetModel | web/src/stores/translationStore.ts:20 | only the model changes |
| TranslationStore.SetTone | web/src/stores/translationStore.ts:21 | only the tone changes, replaced as a whole |
| TranslationStore.ApplyPatch | web/src/stores/translationStore.ts:22 | every axis the patch gives overrides, every other axis is kept |
| TranslationStore.UpdateTone | web/src/stores/translationStore.ts:22 | the patch is applied to the tone; the session and the model are kept |
| TranslationStore.UpdateToneExtremes | web/src/stores/translationStore.ts:21-22 | an empty patch changes nothing, and a patch of every axis is replacing the tone |
| TranslationStore.UpdateToneComposes | web/src/stores/translationStore.ts:22 | two updates are one update with the merged patch, and repeating an update changes nothing |
| UiStore.ToggleSidebar | web/src/stores/uiStore.ts:19 | the sidebar flag flips and the language is kept |
| UiStore.SetSidebarCollapsed | web/src/stores/uiStore.ts:20 | the sidebar flag becomes the value; the language is kept |
| UiStore.SetLocale | web/src/stores/uiStore.ts:21 | only the language changes |
| UiStore.Partialize | web/src/stores/uiStore.ts:25 | only the language is persisted |
| UiStore.Rehydrate | web/src/stores/uiStore.ts:14-28 | a reload brings back the stored language with the sidebar open |
| UiStore.ToggleTwice | web/src/stores/uiStore.ts:19 | toggling twice restores the state |
| UiStore.ReloadKeepsLanguage | web/src/stores/uiStore.ts:14-28 | only the language survives a reload; sidebar changes are not persisted |
| Locale.Lookup | web/src/lib/locale.ts:14-18 | the loaded text of the key, or the key itself when the language or the key is missing |
| Locale.GetTranslations | web/src/lib/locale.ts:20-22 | the loaded table, or an empty one |
| Locale.LookupReadsTable | web/src/lib/locale.ts:14-22 | a lookup reads the table getTranslations returns, falling back to the key |
| Locale.LoadTranslations | web/src/lib/locale.ts:7-12 | a loaded language is not fetched again; otherwise its file is fetched and its table stored, and a failed fetch stores nothing |
| Locale.LoadThenLookup | web/src/lib/locale.ts:7-22 | after a load the lookups read the loaded table and loading again fetches nothing |
| Locale.LoadKeepsOtherLanguages | web/src/lib/locale.ts:7-18 | loading one language never changes another's lookups |
| Locale.TablePaths | web/src/lib/locale.ts:10 | English is fetched from /locales/en.json, Korean from /locales/ko.json |

## Left out

- TranslateEndpoint.HandleTranslate, GrammarCheck.HandleGrammarCheck and BenchmarkEndpoint.HandleBenchmark answer an invalid body with 400 and the error "Invalid request" only. The source also sends `details`, the validator's list of issues; that list is not modelled. No client code reads it.
- ChatView.Typed requires every entry to read back as a message. The realtime hook casts the stored records without checking them, so a record with an unknown type or model would still be shown. Every write the model makes keeps the store readable (`SessionStore.SessionWritesKeepWellFormed`, `AddMessageKeepsWellFormed`, `UpdateMessageKeepsWellFormed`), and `ChatView.StoredSessionTyped` shows that such a store's entries can all be cast; only records written by other code are left out.
- Strings.ToLower lower-cases the ASCII letters A to Z only. JavaScript's `toLowerCase` applies the full Unicode case mapping: it lowers "Ä" to "ä", and it turns "İ" (U+0130) into two code units, so the length is not always kept. The model does not carry the Unicode case tables.
- AllowList.NormalizeEach, and so AllowList.ParseAllowedEmails, lower-cases only ASCII letters. A configured "ÄLICE@x.com" is listed as "Älice@x.com", where the source lists "älice@x.com".
- AllowList.Decide compares the address lower-cased in ASCII only. Against the list ["älice@x.com"], the user "Älice@x.com" is refused here and passed by the source. Addresses whose letters outside ASCII are all lower-case get the same decision in both.
- AllowList.ConfiguredUserPasses covers a user whose address differs from the configured one in the case of ASCII letters only, not in the case of other letters.
- Strings are sequences of Unicode scalar values. JavaScript strings are UTF-16 code units and can hold a lone surrogate, which `JSON.parse` accepts in a request body; such strings are not modelled. Lengths are converted to code units where the source measures them (`Strings.Utf16Length`, `DetectLanguage.Utf16`).
- SessionStore.GetTranslationContext requires every stored message of the session to decode as a message with a numeric `createdAt`. The source copies `type`, `content` and `parentId` raw and scans any record, so a record with an unknown type or no content would only act as a message that is not a source. Every write the model makes keeps the store in that shape (`SessionStore.SessionWritesKeepWellFormed`, `AddMessageKeepsWellFormed`, `UpdateMessageKeepsWellFormed`), so only records written by other code are left out.
- Firebase authentication (`middleware/auth.ts`) is outside the model: every modelled request is from a signed-in user, and the 401 answers it gives are not modelled. The CORS wrapper of the get-session function is outside too.
- Timing is outside the model. Durations come in as parameters, for `performance.now()` and for the benchmark's `durationOf`. So do clock readings, for `Date.now()`.
- Concurrency is outside the model. In the translate handler the model call starts beside the message writes, and the metadata generation runs in the background. The model applies these steps one after another in the order the handler issues them: the writes, the context and settings reads, the model call, the metadata write, the response, the finalising update. Other interleavings, such as a context read that sees the writes only partly, are not modelled.
- The 500 answer of the translate handler (functions/src/functions/translate.ts:170-176) is not modelled. Database writes never fail in the model, and a failure of the model call is caught inside the handler and written to the message.
- The 500 answer of the benchmark handler (functions/src/functions/benchmark.ts:99-105) is not modelled either. The code inside its `try` cannot throw: the timed calls never reject and the mapping does not throw.
- The bodies of the translate adapters (OpenAI, Claude, Gemini) are outside the model. They are the `Adapters` parameter: calls into services the model cannot see.
- `grammarCheck` of `services/llm.ts` is outside the model and is a parameter. It is not part of the file as shipped.
- `getSession` of `services/database.ts` is outside the model. It is not part of the file as shipped; the get-session handler takes the outcome of the read as a parameter. Its result is a session node that always holds a map of messages. A stored session with no `messages` property, for which `Object.entries` would throw and the handler would answer 500, is not modelled.
- `SYSTEM_PROMPT` is outside the model. `functions/src/prompts/system.ts` is not part of this model, so the system prompt text is a parameter.
- The order in which `Object.entries` lists an object's keys is a parameter that lists every key once. The same holds for the order of the `orderByChild("createdAt")` snapshot among messages with equal `createdAt`: the database breaks such ties by key, and the model leaves the order of ties open.
- SessionsGet.HandleGetSession requires that the key order lists the session's message keys. Its ordering claim, MessageArrayInTimeOrder, also requires every message to carry a numeric `createdAt`. The source only casts the stored values to that shape.
- Realtime.NumberAt reads a missing or non-numeric property as 0. The hooks cast the snapshot without checking it, so such a value would flow through untyped; the model assumes the shape the cast declares.
- Realtime.SessionView puts the key as each message's id. The source spreads the stored record after the key, so a record with its own `id` property would override it. The records the database service writes never hold one.
- Sorting.SortBy is a stable insertion sort. The contracts that use it state a permutation and the order by key, not stability.
- BenchmarkPage.SortedEntries is stated as the stable result of the page's comparator. Every modern JavaScript engine sorts stably, but that is not proved here.
- The realtime listeners' lifecycle is outside the model: registering and removing listeners, `useSyncExternalStore` and notification. Only the mapping from an event to the hook's state is modelled.
- Reading the clipboard is a parameter of `InputBox.Paste`. A failed read is a `Threw` outcome that changes nothing, which is how the source swallows the error.
- `percentage` of the session warning is not modelled. It is a floating-point display value.
- Locale.Lookup works on a plain map. The source indexes a JavaScript object, so a key such as `constructor` would read an inherited property; that case is not modelled. A fetched locale file that is not a table of strings is not modelled either.
- TranslationStore.UpdateTone takes a patch whose axes are present or absent. A partial object with an explicit `undefined` value, which would overwrite an axis with `undefined`, is not modelled.
- GrammarClient.Reset models the hook's state after a reset. The mutation's handling of a response that arrives after a reset, while a request was still in flight, is not modelled.
- SessionStore.UpdateMessage requires that the message exists. Firebase would create a partial record for a missing message; that can only happen after a concurrent delete, which is outside the model.
- TranslateEndpoint.OptionsFor reads the parent under the key "undefined" when a concise request has no parent message id. This is how the source spells the path `messages/${parentMessageId}`.
- UiStore.Rehydrate is the persist middleware's default shallow merge of the stored properties over the initial state. The storage itself (`localStorage`) and the asynchronous rehydration are outside the model.
- Rendering is outside the model: markup, styles, scrolling and translated labels.
- Routing and navigation after a new session is outside the model. The model keeps what the success callback receives, `ClientTranslate.OnSuccessArgument`.
- The settings, session-list, delete and clear-all functions are outside the model. They are not part of the core.

## Findings

| source | as written | input that shows it | evidently intended | confidence | as-written member | corrected member |
|---|---|---|---|---|---|---|
| web/src/hooks/useTranslate.ts:19-25 | The body the hook sends has `sessionId`, `text`, `model`, `tone` and the overrides, but no `isKorean`. Both translate schemas (functions/src/functions/translate.ts:23-31, shared/src/schemas/translation.ts:10-18) require `isKorean`. | any translation, e.g. `translate("hello")` from a fresh hook: the server answers 400 "Invalid request" and stores nothing | the body carries `isKorean: isKorean(text)`, as the benchmark page computes it for its requests (web/src/routes/benchmark.tsx:49) | not executed; the request type (web/src/types/translation.ts:3-10) has no `isKorean` either, and the API wrapper that posts the body is not part of this model | ClientTranslate.TranslationAlwaysRejected | ClientTranslate.CorrectedBodyAccepted |
