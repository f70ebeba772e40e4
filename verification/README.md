# A verified model of ffstream's control logic

ffstream is a drop-in replacement for ffmpeg for live streaming. This project models, in Dafny, the parts of it
that decide something: how a command line becomes inputs, encoders and outputs; how inputs are grouped by fallback
priority and edited while they are read; how streams of several inputs get indices in one space; how output URLs are
made from templates; when a failing output is retried; how counters are merged; and what the concurrent creation of
outputs can ask for. Each part is proved against what it is for.

| file | component |
|---|---|
| Basics.dfy | shared vocabulary |
| Decimals.dfy | printed and read decimal numbers |
| ArgParser.dfy | the token parser (pkg/ffflag) |
| CommandLine.dfy | option pairs and the output splitter (cmd/ffstream/unknown_options.go, cmd/ffstream/flag.go) |
| Launch.dfy | the registered flags and `parseFlags` (cmd/ffstream/flag.go) |
| FlagMeanings.dfy | what each flag of `parseFlags` means, by its name |
| RoundTrip.dfy | the round trip through all three stages of the command line |
| InputFactories.dfy | stream indices and the opening of inputs (pkg/ffstream/input_factory.go) |
| PriorityGroups.dfy | fallback priorities and both groupings (pkg/ffstream/resource.go, pkg/ffstream/ffstream.go) |
| InputTable.dfy | the table of inputs: adding, editing, listing, and whole runs of these |
| TableSteps.dfy | adding an input step by step, interleaved with server calls |
| StaleEdits.dfy | edits through a slice of a bucket that has grown since |
| Senders.dfy | the key that tells the outputs of one stream apart |
| SenderURL.dfy | URL templates (pkg/ffstream/sender_factory.go) |
| RetryWindow.dfy | the retry policy of an output (pkg/ffstream/sender_factory.go) |
| Counters.dfy | counter merging and the statistics report |
| OutputCreation.dfy | the goroutines that create outputs in advance (pkg/ffstream/ffstream.go) |

Objects whose methods change them are classes (`Parser`, `GenericOption`, `InputFactory`, `KernelInput`, `FFStream`,
`RetryableOutput`), loops are methods with invariants, and each is proved against a function or against the property
itself; the lemmas then say what that function means, at the end in terms of what a user sees: flag names, characters,
option keys, URL placeholders and fields. Concurrency is modelled as a state machine over atomic steps.

Where the code does less than one might expect, the model keeps the code and states exactly when it works:

- The parser's `-c` has a value without having a group (`Launch.IndexingIsSafe`).
- A source that is not registered is treated as the first one, so its stream 0 collides with the first input's
  (`InputFactories.UnregisteredCollides`); these are the only collisions (`InputFactories.CollisionsAreAnchors`). Before
  the first `NewInput` there is no map to write to (`InputFactories.InputFactory.StreamIndexAssign`).
- A priority that does not fit a signed number cannot be added (`InputTable.FFStream.AddInput`), and the bounds tests of
  the server let the first index past the end through (`InputTable.FFStream.SetInputCustomOption`,
  `InputTable.FFStream.GetInputsInfo`): their contracts say for which requests this happens.
- A request that reads a bucket and edits it later loses its edit exactly when what was added in between no longer fitted
  into the array it had read (`StaleEdits.LostExactly`). No addition is lost (`StaleEdits.BucketIsExplained`).
- The five passes of `GetURL` are one simultaneous substitution exactly for clean templates: those in which, when a
  placeholder's turn comes, it shows nowhere but at its holes (`SenderURL.URLSubstitutesExactly`). Templates whose text
  has no dollar sign are clean, whatever the order of the passes (`SenderURL.PassesInAnyOrder`), and so is a lone dollar
  sign (`SenderURL.LoneDollarIsClean`); a placeholder nested in another is not (`SenderURL.NestedIsNotClean`).
- An encoder flag that is given twice has the codec of its last use and the options of its first
  (`RoundTrip.IsEncoderFor`).
- The goroutines of `Start` read the shared key instead of the copy they are handed. Every resolution is asked for in every
  interleaving exactly if the resolutions are all the same, or the mux mode asks for no outputs
  (`OutputCreation.AlwaysCovered`), and otherwise it can happen that only the last one is
  (`OutputCreation.OnlyTheLastMayBeRequested`). With their own copies the goroutines would always ask for all of them
  (`OutputCreation.IntendedAsksForAll`).

Library calls whose code is not in the repository are parameters: the parsers of sizes, durations, levels, booleans
and signed numbers, codec names, the mux modes, the allocator's choice of capacities, the dictionary's `SetFirst`, the opening of an
input, the clock, and the number of inputs a kernel has opened.

## Model

| member | source | states |
|---|---|---|
| ArgParser.Find | pkg/ffflag/parser.go:108-118 | an option is found by its name exactly if one has it, the first one wins, and a nameless option is never found |
| ArgParser.Parser.FindOptionByName | pkg/ffflag/parser.go:108-118 | the search loop returns the first option with that name |
| ArgParser.Parser.constructor | pkg/ffflag/parser.go:16-18 | a new parser has no options and has collected nothing |
| ArgParser.Parser.AddOption | pkg/ffflag/parser.go:20-54 | registering appends one option that has collected nothing and leaves the others alone |
| ArgParser.Parser.Accept | pkg/ffflag/parser.go:90-101 | a flag takes its new value and, if it collects, all pending tokens as one more group |
| ArgParser.Parser.Parse | pkg/ffflag/parser.go:62-106 | the in-place token loop leaves exactly the state and the error of the specification `Run`, on success and on error, with the position of the error |
| ArgParser.ErrorIsExplained | pkg/ffflag/parser.go:75-93 | a failing parse stops at a flag whose argument is missing, or is refused after what the tokens before it did; these parse without error, and the position is that of the flag or of the refused argument |
| ArgParser.ReadIsLossless | pkg/ffflag/parser.go:62-88 | the reading of a command line as loose tokens, flag uses and tail drops, adds and reorders no token |
| ArgParser.GroupsGrow | pkg/ffflag/parser.go:95-101 | parsing only appends to the groups an option already has |
| ArgParser.TokensConserved | pkg/ffflag/parser.go:62-106 | token conservation: the collected groups in order of occurrence across all collecting options, then the trailing list, are the pending tokens and then every token that belongs to no recognised flag |
| ArgParser.OptionsGetTheirArguments | pkg/ffflag/parser.go:75-101 | each option's value is the result of its own arguments in order, it has one group per occurrence if it collects and none otherwise, and the non-flags are what follows `--` |
| ArgParser.ReadConcat | pkg/ffflag/parser.go:62-88 | past a token boundary the rest of the line is read as if it stood alone |
| ArgParser.BlindToValues | pkg/ffflag/parser.go:81-93 | whether parsing succeeds, and everything but one option's value, does not depend on that value |
| ArgParser.ExtraUse | pkg/ffflag/parser.go:62-106 | one more use of a non-collecting option changes only the value of that option |
| ArgParser.SpellingIsUse | pkg/ffflag/parser.go:70-88 | the tokens of a registered flag are read as one use of that flag, whatever its argument looks like |
| ArgParser.GlobalFlagAnywhere | pkg/ffflag/parser.go:62-106 | position independence: a non-collecting flag can be inserted at any token boundary before `--`; the parse ends as before, only that flag's value differs, and it is the value of the arguments before, this one, and those after |
| ArgParser.RunGoesOn | pkg/ffflag/parser.go:62-106 | from a token boundary before `--`, parsing goes on with exactly what was collected before it |
| ArgParser.NoFlagIsBuffered | pkg/ffflag/parser.go:65-79 | at any token boundary, a token that is empty, `-`, without a dash in front, or a dash with a name that nobody has, is buffered and changes nothing else |
| ArgParser.DashesEndFlags | pkg/ffflag/parser.go:70-73 | at any token boundary, `--` keeps everything after it apart and changes nothing else |
| ArgParser.MissingArgumentFails | pkg/ffflag/parser.go:81-86 | at any token boundary, a known flag that needs an argument and is the last token is an error with its name and token |
| ArgParser.KnownFlagIsUsed | pkg/ffflag/parser.go:75-101 | at any token boundary, a known flag is an error if its argument is refused, and otherwise takes the value and, if it collects, all buffered tokens as one more group |
| CommandLine.ConvertUnknownOptions | cmd/ffstream/unknown_options.go:10-48 | the loop in steps of two computes the pairs of the tokens |
| CommandLine.PairsAreNeighbours | cmd/ffstream/unknown_options.go:15-25 | there is a pair for every two tokens, pair k being tokens 2k and 2k+1 with one dash taken off the key; an odd last token is dropped |
| CommandLine.PairsOfRendered | cmd/ffstream/unknown_options.go:15-25 | any list of pairs, written as dashed keys and values, is paired back |
| CommandLine.RenderedOfPairs | cmd/ffstream/unknown_options.go:15-25 | tokens survive pairing exactly if they come in pairs whose first token starts with a dash |
| CommandLine.SplitTrailing | cmd/ffstream/flag.go:110-128 | the splitter loop computes the groups and URLs of the split, one group per URL |
| CommandLine.SplitIsInvertible | cmd/ffstream/flag.go:110-128 | interleaving groups and URLs, and then the URL-less rest, gives the trailing tokens back, and every group ends at its first URL |
| CommandLine.RegularSplitIsFound | cmd/ffstream/flag.go:114-128 | the split is the only one of that kind: whichever regular split the tokens were made from is found |
| CommandLine.UrlsByCharacter | cmd/ffstream/flag.go:110-128 | a token is a URL if and only if it and the token before it, if there is one, are each empty, `-`, or without a dash in front; the URLs are these tokens in order, and the groups are the tokens between them |
| CommandLine.FlagTokenByCharacter | cmd/ffstream/flag.go:115 | a token looks like an option if and only if it has two or more characters and begins with a dash |
| Launch.ParseAllTexts | pkg/ffflag/flag.go:92-101 | a flag of separate strings accumulates the arguments of all its uses |
| Launch.ParseAllText | pkg/ffflag/flag.go:81-90 | a string flag keeps the argument of its last use |
| Launch.IndexingIsSafe | cmd/ffstream/flag.go:143-149 | after any successful parse there is one group per input and a group for each encoder flag that has a value; `-c` has a group exactly if it was given, and its default value otherwise |
| Launch.Register | cmd/ffstream/flag.go:46-77 | registering the table of flags gives a parser with exactly these options and defaults |
| Launch.ResourcesFrom | cmd/ffstream/flag.go:132-151 | every URL becomes a resource with the pairs of its own group |
| Launch.SelectEncoders | cmd/ffstream/flag.go:192-217 | a stream's own encoder flag overrides `-c`, with its bit rate and its first group, and no group is indexed that does not exist |
| Launch.Assemble | cmd/ffstream/flag.go:85-239 | the same listing is printed or the same fatal error raised, the first one that applies, and otherwise the launch has the inputs, outputs, encoders, automatic bit rate and settings of the parser's state |
| Launch.ParseFlags | cmd/ffstream/flag.go:45-240 | the whole function gives the interpretation of the specification's parse of the arguments |
| FlagMeanings.RegisteredFlags | cmd/ffstream/flag.go:47-77 | the thirty flags, each found by its name, with whether it collects options and whether it takes an argument |
| FlagMeanings.ParseAllScalar | pkg/ffflag/flag.go:55-66 | a numeric flag accepts its uses exactly if all their arguments can be decoded, and holds the number of the last one |
| FlagMeanings.ParseAllBoolean | pkg/ffflag/flag.go:104-117 | a boolean flag accepts its uses exactly if each argument is empty or can be decoded, and holds that of the last one, an empty one being true |
| FlagMeanings.SettingsByName | cmd/ffstream/flag.go:170-189 | each of the thirteen copied settings of a launch is decoded from the last argument of the flag of its own name, and has its own default without one |
| FlagMeanings.ListingsByName | cmd/ffstream/flag.go:85-103 | which listing is printed, by the four flags and their order |
| FlagMeanings.RefusalsByName | cmd/ffstream/flag.go:105-168 | without a listing: which of the fatal errors is raised, in their order, and that otherwise there is a launch |
| FlagMeanings.AutoBitRateByName | cmd/ffstream/flag.go:219-237 | the automatic bit rate exists exactly if its flag is true, with the video codec, both heights modulo 2^32, the restriction to the best entry if muxing is forbidden, and the bypass, each from its own flag |
| FlagMeanings.EncodersByName | cmd/ffstream/flag.go:192-217 | each encoder has the codec, bit rate and first group of the flags of its own stream, or the codec and first group of `-c`, which copies by default |
| FlagMeanings.ResourcesByName | cmd/ffstream/flag.go:132-151 | the inputs are the arguments of `-i` with the pairs of their own groups, and the outputs the URLs of the split with theirs |
| RoundTrip.RunUses | pkg/ffflag/parser.go:62-106 | flags in any order, each after the options it collects, leave every flag with its own arguments and its own groups |
| RoundTrip.OutputsSplit | cmd/ffstream/flag.go:110-128 | outputs written one after the other are loose tokens that split into exactly these outputs |
| RoundTrip.RunRendered | pkg/ffflag/parser.go:62-106 | parsing a written command succeeds, and the parser holds exactly the values and groups of its flags and, as trailing tokens, its outputs |
| RoundTrip.InputsComeBack | cmd/ffstream/flag.go:142-151 | the inputs are the uses of `-i` in order, each with the options written before it |
| RoundTrip.EncodersComeBack | cmd/ffstream/flag.go:192-217 | each encoder is the one its own flag asks for, or `-c`, or copying: the codec of the last use, the options of the first, and the bit rate |
| RoundTrip.RoundTripFrom | cmd/ffstream/flag.go:79-239 | the command-line round trip: flags of all kinds in any order, with their options, and outputs with theirs, written as tokens, are parsed, split, paired up and assembled into exactly the launch they ask for, its automatic bit rate and settings included |
| RoundTrip.CommandRoundTrip | cmd/ffstream/flag.go:45-239 | the same for the flags that `parseFlags` registers |
| RoundTrip.GivenInCommand | cmd/ffstream/flag.go:45-217 | in a written command, the flag of each name has been given exactly the arguments of its uses in order, so that all the statements by name apply to the command |
| RoundTrip.ReadmeExampleIsWellFormed | README.md:16-19 | the example command of the documentation is among the commands the round trip covers |
| RoundTrip.StandardOutputIsWellFormed | cmd/ffstream/flag.go:115 | so is a command that writes to the output `-` |
| InputFactories.FirstSeenIsDistinct | pkg/ffstream/input_factory.go:86-94 | the streams that were given a new index are the streams met, anchors aside, each once |
| InputFactories.IndexIsStable | pkg/ffstream/input_factory.go:86-89 | a stream keeps its index whatever streams come later |
| InputFactories.CollisionsAreAnchors | pkg/ffstream/input_factory.go:78-94 | two different streams share an index if and only if both are stream 0 of the first or of an unregistered source |
| InputFactories.UnregisteredCollides | pkg/ffstream/input_factory.go:78-85 | stream 0 of a source that is not registered and stream 0 of the first input are different streams with the same index 0 |
| InputFactories.IndicesAreDense | pkg/ffstream/input_factory.go:91-94 | the indices given to streams other than anchors are exactly 1 up to their number |
| InputFactories.InputStreamsDoNotCollide | pkg/ffstream/input_factory.go:52-95 | among the opened inputs, index 0 is stream 0 of the first input and no two streams share an index |
| InputFactories.InputFactory.constructor | pkg/ffstream/input_factory.go:37-46 | a new factory has no index map and no registered source |
| InputFactories.InputFactory.StreamIndexAssign | pkg/ffstream/input_factory.go:68-95 | the map-based allocator answers as the first-seen rule does over the calls since the last reset; without a source it fails, and without a map it panics unless the stream is an anchor |
| InputFactories.LastOptionWins | pkg/ffstream/input_factory.go:142-166 | of several start options with the same key the last one counts |
| InputFactories.NoOption | pkg/ffstream/input_factory.go:139-167 | without such an option no start is forced |
| InputFactories.ConfigAsWritten | pkg/ffstream/input_factory.go:139-167 | the configuration passes the options on unchanged, and each of its two starts is what the last `force_start_pts`, or `force_start_dts`, says: `keep`, a number, or none without such an option |
| InputFactories.FailureAsWritten | pkg/ffstream/input_factory.go:143-165 | an option list is accepted exactly if the value of every option of these two keys, overridden or not, is `keep` or a number |
| InputFactories.Configure | pkg/ffstream/input_factory.go:139-167 | configuring succeeds exactly if every start option parses, passes the options on, and gives each start from the last option of its own key |
| InputFactories.InputFactory.NewInput | pkg/ffstream/input_factory.go:115-187 | all or nothing: it stops at the first resource of its own bucket that cannot be configured or opened, closes what was opened and leaves the indices alone; otherwise all inputs are open, distinct, in order, with the URL, the options and the starts of their resources, and registered at their positions in a fresh index space |
| InputFactories.InputFactory.Reset | pkg/ffstream/input_factory.go:175-184 | the index space starts again at 1 and the sources are numbered by position |
| InputFactories.InputFactory.CloseAll | pkg/ffstream/input_factory.go:131-137 | every input opened so far is closed |
| PriorityGroups.FirstPriorityDecides | pkg/ffstream/resource.go:20-29 | the first priority option that can be parsed decides, and those that cannot be parsed are skipped |
| PriorityGroups.NoPriorityIsZero | pkg/ffstream/resource.go:30 | without a priority option that can be parsed the priority is 0 |
| PriorityGroups.PriorityAsWritten | pkg/ffstream/resource.go:20-29 | the printed digits of a number below 2^64, with or without zeros in front, in the first `fallback_priority` option that holds such a number, give that priority |
| PriorityGroups.NoPriorityAsWritten | pkg/ffstream/resource.go:20-30 | if the texts of all such options are empty, not numbers, or too large, the priority is 0 |
| Decimals.PrintedIsRead | pkg/ffstream/resource.go:22 | reading the printed digits of a number gives the number |
| Decimals.EveryTextIsPrinted | pkg/ffstream/resource.go:22 | every text of digits is zeros followed by the printed digits of the number it is read as |
| PriorityGroups.GetFallbackPriority | pkg/ffstream/resource.go:17-31 | the search with early return computes that priority |
| PriorityGroups.TableIsDense | pkg/ffstream/ffstream.go:95-100 | the table grown one resource at a time has, for every priority up to the highest, the resources of that priority in order of arrival |
| PriorityGroups.BucketsInOrderOfArrival | pkg/ffstream/ffstream.go:95-100 | bucket p holds, at increasing positions of arrival, exactly the resources whose priority is p |
| PriorityGroups.DenseIsStableSort | pkg/ffstream/ffstream.go:95-100 | the buckets read in order are sorted by priority and keep, for each priority, the order of arrival |
| PriorityGroups.StableSortIsUnique | pkg/ffstream/resource.go:57-64 | only one arrangement is sorted by priority and keeps the order of arrival within each priority |
| PriorityGroups.Sort | pkg/ffstream/resource.go:56 | sorting the distinct priorities gives an increasing list of the same numbers |
| PriorityGroups.ByFallbackPriority | pkg/ffstream/resource.go:35-64 | grouping with a map and a sort gives the dense table without its empty buckets |
| PriorityGroups.GroupingsAgree | pkg/ffstream/resource.go:35-64 | both groupings agree, and either one, read in order, is the stable sort of the resources, with nothing lost or duplicated; each group has a single priority, and the priorities of the groups increase |
| InputTable.FFStream.constructor | pkg/ffstream/ffstream.go:49-68 | a new stream has no inputs, and nothing in its log |
| InputTable.FFStream.AddInput | pkg/ffstream/ffstream.go:83-102 | a resource whose priority fits a signed number is appended to its bucket, the table and the chains grow together, chain p keeps serving priority p, the consistency error cannot occur, and the table stays the one that the log of calls explains; any other priority panics and changes nothing |
| InputTable.FFStream.SetInputCustomOption | pkg/ffstreamserver/grpc_server.go:337-373 | a request changes the table exactly if it addresses an existing resource; then the options of that resource are updated with the item, and every URL and every other resource keep their old value; the mismatch and missing-bucket errors cannot occur, the table stays the one that the log of calls explains, and it is stated which requests are refused and which index out of range |
| InputTable.FFStream.GetInputsInfo | pkg/ffstreamserver/grpc_server.go:290-335 | the listing has a row per resource, bucket by bucket, each saying whether its own input was there when the row was made, and fails exactly if some row number equals the number of inputs found when that row was made |
| InputTable.RowsAddressTable | pkg/ffstreamserver/grpc_server.go:306-328 | each row carries the priority, the number and the URL of one resource of the table, and says whether the kernel had more inputs than that number; the rows go up by priority and number |
| InputTable.EveryResourceHasRow | pkg/ffstreamserver/grpc_server.go:306-328 | every resource of the table has its row |
| InputTable.SteadyKernels | pkg/ffstreamserver/grpc_server.go:297-331 | if no kernel changes or is busy between the rows of its bucket, that is exactly if some chain has opened fewer inputs than its bucket holds |
| InputTable.ListingIsFlattened | pkg/ffstreamserver/grpc_server.go:297-331 | the listed URLs are those of the flattened table |
| InputTable.NotYetEdited | pkg/ffstreamserver/grpc_server.go:364-370 | edits addressed to a place that does not exist yet have no effect |
| InputTable.AddKeeps | pkg/ffstream/ffstream.go:96-100 | adding does not move or change what is already in the table |
| InputTable.ShapeIsThatOfAdditions | pkg/ffstreamserver/grpc_server.go:337-373 | over any run of additions, panicking ones among them, and edits, the table has the shape the additions that fit alone give it |
| InputTable.EditsExplainResource | pkg/ffstreamserver/grpc_server.go:337-373 | over any run, each resource has the URL of the one added there, and its options are those it was added with, updated with exactly the edits addressed to it since, in order |
| TableSteps.EveryStateIsConsistent | pkg/ffstream/ffstream.go:92-100 | in every interleaving the chains are ahead of the table by at most one, chain k serves priority k, and whenever no addition is under way the table is that of a sequential run of the same operations |
| TableSteps.ReadersGetTheirBucket | pkg/ffstream/input_factory.go:97-113 | a reader at any step gets its own bucket, or the out-of-range error exactly while that bucket is being added, and never another bucket |
| StaleEdits.LostExactly | pkg/ffstreamserver/grpc_server.go:359-371 | a request that reads a bucket and writes later, with any additions and other requests in between, updates the options of its resource exactly if the additions fitted into the array it read, and changes nothing else; otherwise the bucket is as if it had not been made |
| StaleEdits.BucketIsExplained | pkg/ffstream/ffstream.go:95-100 | over any run no addition is lost, and the options of each resource are those it was added with, updated with exactly the edits that were not lost, in order |
| SenderURL.DigitsAreDollarFree | pkg/ffstream/sender_factory.go:32-40 | printed numbers cannot look like placeholders |
| Decimals.DigitsArePositional | pkg/ffstream/sender_factory.go:32-40 | printing a number gives, from the highest weight to the lowest, its decimal digits, as many as it needs |
| SenderURL.TextIsKept | pkg/ffstream/sender_factory.go:41-45 | a pass leaves text without a dollar sign alone |
| SenderURL.OtherHoleIsKept | pkg/ffstream/sender_factory.go:41-45 | a pass leaves the other placeholders alone |
| SenderURL.PassFillsItsHoles | pkg/ffstream/sender_factory.go:41-45 | for every template, a pass fills in the holes of its placeholder and nothing else if and only if the placeholder shows nowhere but at its holes |
| SenderURL.PassesSubstitute | pkg/ffstream/sender_factory.go:41-45 | for every template and every list of passes that forgets no placeholder, the passes are one simultaneous substitution if and only if each placeholder, when its turn comes, shows nowhere but at its holes |
| SenderURL.PassesInAnyOrder | pkg/ffstream/sender_factory.go:41-45 | for templates whose text has no dollar sign, passes in any order that forget no placeholder are one simultaneous substitution, and no placeholder is left |
| SenderURL.URLSubstitutesExactly | pkg/ffstream/sender_factory.go:26-48 | the five passes of the function are one simultaneous substitution if and only if the template is clean in that sense |
| SenderURL.URLIsSimultaneousSubstitution | pkg/ffstream/sender_factory.go:26-48 | in particular they are for templates whose text has no dollar sign |
| SenderURL.CodecsByName | pkg/ffstream/sender_factory.go:42-44 | `${a:0:codec}` stands for the canonical name of the audio codec and `${v:0:codec}` for that of the video codec |
| SenderURL.NumbersByName | pkg/ffstream/sender_factory.go:31-46 | `${a:0:rate}`, `${v:0:width}` and `${v:0:height}` each stand for their own number of the key, in decimal without zeros in front, or for nothing if it is 0 |
| SenderURL.LoneDollarIsClean | pkg/ffstream/sender_factory.go:41-45 | a dollar sign in the text does no harm by itself |
| SenderURL.NestedPlaceholderIsRescanned | pkg/ffstream/sender_factory.go:41-45 | for a placeholder nested in another one the substitution fails: the placeholder completed by one pass is replaced by a later one |
| SenderURL.NestedIsNotClean | pkg/ffstream/sender_factory.go:41-45 | that template does not meet the exact condition |
| RetryWindow.RetryableOutput.constructor | pkg/ffstream/sender_factory.go:175-176 | no failure has been seen yet |
| RetryWindow.RetryableOutput.OnError | pkg/ffstream/sender_factory.go:185-197 | the callback decides by the start of the current streak of failures, which it records, and sleeps 100 ms before a retry |
| RetryWindow.RetryableOutput.OnKernelOpen | pkg/ffstream/sender_factory.go:198-201 | a successful open ends the streak |
| RetryWindow.StreakStartMeans | pkg/ffstream/sender_factory.go:175-201 | the shared variable holds the time of the first failure since the last successful open |
| RetryWindow.StreakExists | pkg/ffstream/sender_factory.go:175-201 | every failure belongs to exactly one streak |
| RetryWindow.RetriedWithinTimeout | pkg/ffstream/sender_factory.go:185-197 | a failure is retried exactly if it comes at most the timeout after the first failure since the last open |
| RetryWindow.RefusalPersists | pkg/ffstream/sender_factory.go:189-192 | once refused, every failure is refused until the next open |
| RetryWindow.RetryBound | pkg/ffstream/sender_factory.go:185-197 | between two opens there are at most timeout / 100 ms + 1 retries, and none for a negative timeout |
| RetryWindow.BoundIsReached | pkg/ffstream/sender_factory.go:194-195 | some streak reaches that bound |
| Counters.ItemsCommute | pkg/ffstreamserver/grpc/goconv/counters.go:45-59 | item addition is commutative and a missing item is its unit |
| Counters.ItemsAssociate | pkg/ffstreamserver/grpc/goconv/counters.go:45-59 | item addition with wrapping sums is associative, missing items included |
| Counters.AddItemIsModular | pkg/ffstreamserver/grpc/goconv/counters.go:45-59 | an item sum is the sum modulo 2^64, and is missing only if both are |
| Counters.SubSectionsCommute | pkg/ffstreamserver/grpc/goconv/counters.go:25-43 | subsection addition is commutative and a missing subsection is its unit |
| Counters.SubSectionsAssociate | pkg/ffstreamserver/grpc/goconv/counters.go:25-43 | subsection addition is associative |
| Counters.SectionsCommute | pkg/ffstreamserver/grpc/goconv/counters.go:7-23 | section addition is commutative and a missing section is its unit |
| Counters.SectionsAssociate | pkg/ffstreamserver/grpc/goconv/counters.go:7-23 | section addition is associative |
| Counters.AddIsComponentWise | pkg/ffstreamserver/grpc/goconv/counters.go:7-43 | each of the eight items of a sum is the sum of that item |
| Counters.ItemsByName | pkg/ffstreamserver/grpc/goconv/counters.go:7-43 | the eight items by their names in the report |
| Counters.MergeInAnyOrder | pkg/ffstream/ffstream.go:168-178 | merging sections gives the same result in every order |
| Counters.MergeIsTotal | pkg/ffstream/ffstream.go:154-178 | each merged counter is the total of that counter over all outputs modulo 2^64, and it is missing only if it is missing everywhere |
| Counters.GetStats | pkg/ffstream/ffstream.go:148-181 | the report of a loop over the outputs in no particular order is the merge in every order that visits each output once |
| Counters.MergedByName | pkg/ffstream/ffstream.go:168-178 | the processed, missed, generated and sent parts of the report are each merged from the part of the same name of the outputs, starting from an empty section |
| OutputCreation.ReachableKeepsInv | pkg/ffstream/ffstream.go:240-286 | in every reachable state the key is the base key with the resolution written last, and every request was for a resolution written at or after the goroutine's own |
| OutputCreation.EveryRunIsAReading | pkg/ffstream/ffstream.go:240-286 | when all goroutines are done, each asked for its own or a later configured resolution, the last resolution was asked for, and the bypass key did not vary |
| OutputCreation.RequestedKeys | pkg/ffstream/ffstream.go:240-286 | for each mux mode, which fields of every requested key, and of the bypass key, are those of the base key, which are empty, and which resolution it has |
| OutputCreation.EveryReadingCanHappen | pkg/ffstream/ffstream.go:240-286 | every such assignment of resolutions to goroutines is the outcome of some interleaving |
| OutputCreation.AlwaysCovered | pkg/ffstream/ffstream.go:240-286 | all resolutions are asked for in every interleaving if and only if the mux mode asks for no outputs or all resolutions are the same |
| OutputCreation.CoverageMeansOwn | pkg/ffstream/ffstream.go:243-262 | in one run of distinct resolutions, all are asked for exactly if every goroutine happened to find its own |
| OutputCreation.OnlyTheLastMayBeRequested | pkg/ffstream/ffstream.go:243-262 | in some interleaving only the last resolution is asked for |
| OutputCreation.RunsAlike | pkg/ffstream/ffstream.go:240-286 | the code and the program in which each goroutine reads the copy it is handed go through the same states in every interleaving, except for what is asked for |
| OutputCreation.IntendedAsksForAll | pkg/ffstream/ffstream.go:245-262 | with its own copy, each goroutine asks for its own resolution, and so every resolution is asked for, in every interleaving |
| OutputCreation.SharingIsHarmless | pkg/ffstream/ffstream.go:240-286 | the code asks for the same as that program in every interleaving if and only if the mux mode asks for no outputs or all resolutions are the same |

## Left out

- The `Parse` and `Value` methods of the flag types (pkg/ffflag/flag.go) are functions on values, not updates through a
  pointer; `Float64`, which no flag uses, is not modelled.
- Launch.ParseFlags: the wording of listings and messages; the table of bit rates itself, which is cut and whose best entry
  is taken by avpipeline (`Launch.AutoBitRate` holds what it is made from); nil and empty lists are the same.
- RoundTrip.CommandRoundTrip: the written form puts the outputs last and does not use `--`; a global flag between the
  outputs, or between a flag and its options, is covered by `ArgParser.GlobalFlagAnywhere`.
- InputFactories.InputFactory.StreamIndexAssign: the counter is unbounded; the lock around it is taken as given.
- InputFactories.InputFactory.NewInput: errors of `Close` are ignored, as in the code; what the opened inputs are wrapped in
  belongs to avpipeline.
- InputTable.FFStream.AddInput: memory is unbounded and the loop counter does not overflow at the largest signed number.
- InputTable.FFStream.SetInputCustomOption: one request is one step; reading the bucket and writing through the slice are
  two steps in `StaleEdits`.
- StaleEdits.LostExactly: `SetFirst` is taken to replace a resource's list of options. Its code is not in the repository; if
  it updates an option that exists already inside the list's own array, the copies of a resource share that update, and
  it is not lost.
- TableSteps.EveryStateIsConsistent: reading a slice header is one atomic step.
- RetryWindow.RetryableOutput.OnError: Go's saturation of time differences beyond 292 years.
- SenderURL.URLSubstitutesExactly: codec names with a dollar sign in them are not covered.
- OutputCreation.EveryRunIsAReading: the shared key is read and written as a whole; the copy codec's name is taken to be
  `copy`.
- Counters.GetStats: the nil receiver, and the conversion of a node's counters.
- The output kernel itself (send buffer size, mux mode checks, opening), avpipeline's own logic, and `SetStopInput`, whose
  bounds test is that of `SetInputCustomOption`.
- `addCancelFnLocked`, getters and setters, field-by-field converters, the rewriting of movflags in cmd/ffstream/main.go.
- Servers, clients, command-line plumbing of ffstreamctl, TLS, logging, SRT-specific code and the device tests.
