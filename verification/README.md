# AI travel planner — verified model of the text-processing core

This project models the deterministic core of an AI travel-planning web
application (Next.js, TypeScript) in Dafny and proves properties of it:

- **The rule-based voice transcript extractor** (`VoiceParser`): destination
  lookup in a lexicon that is sorted in place with cities first; "N天" or
  explicit dates with the one-year bump; the budget and head-count pattern
  cascades with their sanity ranges; the preference taxonomy. Dates are day
  numbers computed with ECMAScript's `MakeDay` arithmetic. The current time
  is a parameter.
- **The clean-up both model-backed API routes apply to a model reply**:
  - strip "```json" and any whitespace after it, then "```";
  - drop `//` comments up to the line end;
  - drop trailing commas before `]` and `}`;
  - trim the result;
  - take the span from the first `{` to the last `}`.
- **The voice-parsing route** (`parseVoiceWithLLM`, `POST`): field coercion,
  transcript check, error surfacing.
- **The plan route** (`generatePlanWithLLM`, `POST`): auth gate,
  required-field check, record mapping.
- **The expense summary fold** (`getExpenseSummary`).
- **The planner form state** (initial record, single-field edit, merge of a
  voice reply, message colour).
- **The scenic-photo carousel**: lookup list assembly, the usable-photo
  filter with its cap of eight, and index moves.

Modules, by file:

| file | module | what it holds |
|---|---|---|
| wrappers.dfy | Wrappers | `Option`, `Result` |
| js_text.dfy | JsText | JavaScript string primitives: `\s`, `includes`, `trim`, `toLowerCase`, `parseInt`, `Number#toString` |
| json_value.dfy | JsonValue | JSON values as parsed by `JSON.parse`, truthiness, `String(v)`, property reads |
| regex.dfy | Regex | the fixed regular-expression shapes the extractor uses, with leftmost-first, greedy matching |
| calendar.dfy | Calendar | ECMAScript `DayFromYear`/`MakeDay`, `new Date(y, m, d)` normalisation, `setFullYear` |
| voice_lexicon.dfy | VoiceLexicon | the destination table, the city-first stable sort, the lexicon scan, the keyword groups |
| voice_rules.dfy | VoiceRules | budget, head-count, preference and date rules as functions |
| voice_parser.dfy | Voice | the `VoiceParser` class: its methods with loops, proved equal to the rules |
| voice_examples.dfy | VoiceExamples | the behaviours on concrete transcripts, each derived from a general lemma |
| reply_cleanup.dfy | ReplyCleanup | the shared clean-up chain and brace extraction |
| chat_reply.dfy | ChatReply | reading `choices[0].message.content` |
| parse_voice_route.dfy | ParseVoiceRoute | the voice-parsing route |
| plan_route.dfy | PlanRoute | the plan route |
| expense_summary.dfy | ExpenseSummary | the summary fold |
| planner_page.dfy | PlannerPage | the `Planner` form state |
| scenic_photos.dfy | ScenicPhotos | the photo list and the `Carousel` index |

Model choices and behaviours taken from the code:

- **Inputs made explicit.** `JSON.parse` is a parameter
  `string -> Option<Json>`. So are the model service's reply, the session
  lookup and the database insert. The clock is a time value in
  milliseconds.
- **Behaviours taken from the code that a reader may not expect:**
  - A missing API key is checked outside the `try` in both routes. So the
    client receives "OpenAI API key not configured", not the generic parse
    failure message.
  - A non-numeric `budget` or `travelers` string is not dropped by the voice
    route. `parseInt` turns it into NaN, which is kept, and the JSON
    response writes it as `null`.
  - In the extractor, the ×10000 test divides a function by a boolean. That
    gives NaN, which is falsy, so the branch never fires. Only 千 scales an
    amount, ×1000.

## Model

| member | source | states |
|---|---|---|
| Voice.VoiceParser.constructor | lib/voice/voiceParser.ts:11-16 | the destination table starts as the 41 names in declaration order |
| Voice.VoiceParser.ParseVoiceInput | lib/voice/voiceParser.ts:29-55 | lower-cases the transcript once; the result is the five extractions of that text, combined independently; the table is left sorted cities-first |
| Voice.PlanDestination | lib/voice/voiceParser.ts:36 | a destination in the result is always a name from the table |
| Voice.PlanDates | lib/voice/voiceParser.ts:39-43 | start and end dates are set together or not at all; both are valid dates and the start is at most one day after the end |
| Voice.PlanAmounts | lib/voice/voiceParser.ts:46-49 | a budget is a decimal string worth 100 to 1,000,000; a head count is a decimal string worth 1 to 20 |
| Voice.PlanFailsOnlyOnDates | lib/voice/voiceParser.ts:99-100 | parsing throws exactly when date formatting throws ("Invalid time value") |
| Voice.DestinationInLexicon | lib/voice/voiceParser.ts:57-88 | a found destination is a table name |
| Voice.VoiceParser.ExtractDestination | lib/voice/voiceParser.ts:57-88 | sorts the table in place into its city-first order and returns the first entry the text mentions, else the Japan/Korea/Thailand keyword groups, else nothing |
| Voice.VoiceParser.ExtractDateInfo | lib/voice/voiceParser.ts:90-143 | equals the date rule: "N天" first, then the three explicit patterns in order, else nothing |
| Voice.VoiceParser.StartFromMatch | lib/voice/voiceParser.ts:113-138 | an explicit match gives a five-day range whose dates are valid, or the invalid-time error |
| Voice.VoiceParser.ExtractBudget | lib/voice/voiceParser.ts:145-188 | equals the budget rule; any result is a decimal string worth 100 to 1,000,000 |
| Voice.VoiceParser.ExtractTravelers | lib/voice/voiceParser.ts:190-211 | equals the head-count rule; any result is a decimal string worth 1 to 20 |
| Voice.VoiceParser.ExtractPreferences | lib/voice/voiceParser.ts:213-226 | equals the preference rule; a result exists exactly when some category is triggered |
| Voice.CollectLabels | lib/voice/voiceParser.ts:214-223 | the nested loop with `break` collects exactly the triggered categories' names, in table order |
| VoiceLexicon.CityFirstPermutation | lib/voice/voiceParser.ts:59-68 | sorting leaves the table a permutation of itself |
| VoiceLexicon.CityFirstMembers | lib/voice/voiceParser.ts:59-68 | a name is in the sorted table exactly when it was in the table |
| VoiceLexicon.CityFirstOrdered | lib/voice/voiceParser.ts:59-68 | in the sorted table no non-city precedes a city |
| VoiceLexicon.CityFirstStable | lib/voice/voiceParser.ts:59-68 | the sort is stable: cities keep their relative order, and so do the other names |
| VoiceLexicon.CityFirstIdempotent | lib/voice/voiceParser.ts:59-68 | sorting an already sorted table changes nothing, so a second call does not reorder |
| VoiceLexicon.PartitionPermutation | lib/voice/voiceParser.ts:59-68 | the cities and the other names together are the whole table, counted with multiplicity |
| VoiceLexicon.PartitionAppend | lib/voice/voiceParser.ts:59-68 | splitting a joined list into cities and others splits each part the same way |
| VoiceLexicon.LexiconCityFirst | lib/voice/voiceParser.ts:11-16 | the sorted table is the eight Chinese cities, then the twelve names before them, then the rest |
| VoiceLexicon.HeadNotCities | lib/voice/voiceParser.ts:61-63 | none of the twelve names before the cities contains a city keyword |
| VoiceLexicon.CitiesAreCities | lib/voice/voiceParser.ts:61-63 | each of the eight Chinese cities contains a city keyword |
| VoiceLexicon.TailNotCities | lib/voice/voiceParser.ts:61-63 | none of the names after the cities contains a city keyword |
| VoiceLexicon.Scan | lib/voice/voiceParser.ts:70-74 | the scan returns a table name the text mentions; it returns nothing exactly when no name is mentioned |
| VoiceLexicon.ScanFindsFirst | lib/voice/voiceParser.ts:70-74 | when entry k is the first mentioned, the scan returns entry k |
| VoiceLexicon.KeywordGroups | lib/voice/voiceParser.ts:76-87 | the groups are tried in order: "日本" exactly when a Japan keyword occurs, "韩国" exactly when no Japan keyword but a Korea keyword occurs, "泰国" exactly when no Japan or Korea keyword but a Thailand keyword occurs; nothing exactly when no group matches, so none of the eleven keywords occurs |
| VoiceRules.ScaleFactor | lib/voice/voiceParser.ts:163-167 | the ×10000 branch never fires; the amount is multiplied by 1000 exactly when the text contains 千 |
| VoiceRules.BudgetFrom | lib/voice/voiceParser.ts:157-174 | any budget the cascade returns is a decimal string worth 100 to 1,000,000 |
| VoiceRules.BudgetSkips | lib/voice/voiceParser.ts:157-174 | expressions that give nothing are skipped: the cascade answers as the remaining expressions do |
| VoiceRules.BudgetFromNone | lib/voice/voiceParser.ts:157-174 | the cascade gives nothing exactly when every expression misses or reads an out-of-range amount |
| VoiceRules.BudgetBounds | lib/voice/voiceParser.ts:145-188 | with the fixed-phrase fallback too, every budget is a decimal string worth 100 to 1,000,000 |
| VoiceRules.TravelersFrom | lib/voice/voiceParser.ts:200-208 | any head count the cascade returns is a decimal string worth 1 to 20 |
| VoiceRules.TravelersSkips | lib/voice/voiceParser.ts:200-208 | expressions that give nothing are skipped |
| VoiceRules.TravelersFromNone | lib/voice/voiceParser.ts:200-210 | nothing exactly when every expression misses or reads a count outside 1 to 20 |
| VoiceRules.TravelersOf | lib/voice/voiceParser.ts:190-211 | a head count is a decimal string worth 1 to 20 |
| VoiceRules.Selected | lib/voice/voiceParser.ts:216-223 | every triggered category is listed, no more names than categories, and the list is empty exactly when none is triggered |
| VoiceRules.SelectedSnoc | lib/voice/voiceParser.ts:216-223 | one more category appends its name exactly when it is triggered |
| VoiceRules.FoundLabelsOrdered | lib/voice/voiceParser.ts:216-225 | the labels come in table order, whatever order the text mentions them in, each from a triggered category |
| VoiceRules.FoundLabelsDistinct | lib/voice/voiceParser.ts:216-223 | no label appears twice |
| VoiceRules.FoundLabelsExactly | lib/voice/voiceParser.ts:216-223 | a category's label is listed exactly when one of its keywords occurs in the text |
| VoiceRules.CategoriesDistinct | lib/voice/voiceParser.ts:18-27 | the eight category names are distinct |
| VoiceRules.PreferencesOf | lib/voice/voiceParser.ts:225 | nothing exactly when no category is triggered |
| VoiceRules.DaysRangeSucceeds | lib/voice/voiceParser.ts:92-101 | "N天" gives today and the day of now plus N − 1 days |
| VoiceRules.DaysRangeSpan | lib/voice/voiceParser.ts:94-101 | the end is N − 1 days after the start, so "0天" ends the day before it starts; it fails exactly when the end time is out of range |
| VoiceRules.DaysTakePrecedence | lib/voice/voiceParser.ts:92-102 | when "N天" matches, the explicit patterns are never consulted |
| VoiceRules.RangeFromDay | lib/voice/voiceParser.ts:128-138 | a successful explicit range spans five days, and all its dates are valid |
| VoiceRules.RangeKept | lib/voice/voiceParser.ts:128-133 | a date whose midnight is not before now is kept |
| VoiceRules.RangeBumped | lib/voice/voiceParser.ts:128-133 | a date whose midnight is before now is moved one year on |
| VoiceRules.RangeYearBump | lib/voice/voiceParser.ts:129-131 | a moved date lies 365 or 366 days later; an unmoved one is the date itself |
| VoiceRules.TodayIsPushedAhead | lib/voice/voiceParser.ts:129 | today's own date is before now (past midnight), so it is pushed a year ahead |
| VoiceRules.LongPastStaysPast | lib/voice/voiceParser.ts:129-131 | an explicit date more than a year back is moved exactly one year and stays in the past |
| VoiceRules.ExplicitFromFailure | lib/voice/voiceParser.ts:136-137 | the explicit patterns fail only with the invalid-time error |
| VoiceRules.ExplicitFromInRange | lib/voice/voiceParser.ts:111-140 | an explicit result spans five valid days |
| VoiceRules.DateInfoFailure | lib/voice/voiceParser.ts:99-100 | date extraction fails only with the invalid-time error |
| VoiceRules.DateInfoInRange | lib/voice/voiceParser.ts:90-143 | any range found has valid dates and starts at most a day after it ends |
| VoiceExamples.BudgetAfterKeyword | lib/voice/voiceParser.ts:151 | "预算" followed by an in-range numeral gives that numeral |
| VoiceExamples.BudgetStated | lib/voice/voiceParser.ts:151 | "预算5000元" gives "5000" |
| VoiceExamples.BudgetInThousands | lib/voice/voiceParser.ts:149-166 | a numeral before 千 is multiplied by 1000 |
| VoiceExamples.BudgetInThousandsExample | lib/voice/voiceParser.ts:149-166 | "5千元" gives "5000" |
| VoiceExamples.TenThousandsNotConverted | lib/voice/voiceParser.ts:147-170 | a numeral before 万 is never multiplied: it is the budget when it is in range by itself, and otherwise only the fixed phrases count |
| VoiceExamples.FiveMillionReadAsFiveHundred | lib/voice/voiceParser.ts:147-170 | "500万" gives "500" |
| VoiceExamples.ThirtyThousandGivesNothing | lib/voice/voiceParser.ts:145-188 | "3万元" gives no budget |
| VoiceExamples.TenThousandByPhrase | lib/voice/voiceParser.ts:177-179 | "1万元" gives "10000", through the fixed phrase |
| VoiceExamples.BareAmount | lib/voice/voiceParser.ts:153-172 | a bare numeral is the budget exactly when it lies from 100 to 1,000,000 |
| VoiceExamples.HundredYuan | lib/voice/voiceParser.ts:153-172 | "100元" gives "100" |
| VoiceExamples.NinetyNineYuan | lib/voice/voiceParser.ts:145-188 | "99元" gives no budget |
| VoiceExamples.NoDigitsOnlyPhrases | lib/voice/voiceParser.ts:176-185 | without a digit in the text, only the fixed phrases can give a budget |
| VoiceExamples.TwoThousandInWords | lib/voice/voiceParser.ts:183-185 | "两千" gives "2000" |
| VoiceExamples.PersonsStated | lib/voice/voiceParser.ts:192-206 | "N人" gives N when N ≤ 20, and nothing otherwise |
| VoiceExamples.ThreePersons | lib/voice/voiceParser.ts:192-206 | "3人" gives "3" |
| VoiceExamples.FiftyPersons | lib/voice/voiceParser.ts:190-211 | "50人" gives nothing |
| VoiceExamples.MeasureWordBlocksPersons | lib/voice/voiceParser.ts:192 | in "N个人" the first expression does not match |
| VoiceExamples.MeasureWordPersons | lib/voice/voiceParser.ts:193-206 | "N个人" gives N, read by the second expression |
| VoiceExamples.ThreePeople | lib/voice/voiceParser.ts:193-206 | "3个人" gives "3" |
| VoiceExamples.ChildrenCounted | lib/voice/voiceParser.ts:195-206 | "带N个孩子" gives N |
| VoiceExamples.TwoChildren | lib/voice/voiceParser.ts:195-206 | "带2个孩子" gives "2" |
| VoiceExamples.CityBeforeCountry | lib/voice/voiceParser.ts:59-74 | "从上海去日本" gives "上海": cities are scanned before countries |
| VoiceExamples.TokyoMeansJapan | lib/voice/voiceParser.ts:77-79 | "我想去东京旅游" mentions no table name and gives "日本" through the keyword group |
| VoiceExamples.IndonesiaBeforeIndia | lib/voice/voiceParser.ts:70-74 | "去印度尼西亚" gives "印度尼西亚", which is scanned before "印度" |
| VoiceExamples.ShanghaiMeansSeaside | lib/voice/voiceParser.ts:22 | "去上海" gives the preference 自然风光, triggered by 海, and nothing else |
| Regex.MatchAt | lib/voice/voiceParser.ts:147-154 | a match lies within the text and gives one all-digit group per capture; for a well-formed expression every group is non-empty |
| Regex.FirstMatch | lib/voice/voiceParser.ts:158 | `text.match` yields one all-digit group per capture, each non-empty for a well-formed expression |
| Regex.FirstMatchIsLeftmost | lib/voice/voiceParser.ts:158 | the match found starts at the leftmost position where the expression matches |
| Calendar.Normalize | lib/voice/voiceParser.ts:119-125 | `new Date(y, m, d)` with any month and date gives a valid calendar date with the same day number |
| Calendar.CivilOf | lib/voice/voiceParser.ts:122-125 | every day number has a valid calendar date (`getFullYear`, `getMonth`) |
| Calendar.CivilOfDayOf | lib/voice/voiceParser.ts:119-125 | a valid calendar date is recovered from its day number |
| Calendar.DayOfInjective | lib/voice/voiceParser.ts:119-125 | distinct valid dates have distinct day numbers |
| Calendar.ConstructorYear | lib/voice/voiceParser.ts:119 | a year from 0 to 99 given to `new Date` means 1900 plus it |
| Calendar.MonthCarry | lib/voice/voiceParser.ts:119-125 | a date past the month's end carries into the next month |
| Calendar.DayFromYearFormula | lib/voice/voiceParser.ts:119 | the year's first day, as a sum of year lengths, agrees with ECMAScript's closed form |
| Calendar.NextYearSameDateStep | lib/voice/voiceParser.ts:130 | `setFullYear(year + 1)` moves a date 365 or 366 days; 366 exactly when it is January or February of a leap year, or March to December of the year before a leap year |
| Calendar.NextYearIsAfterThisYear | lib/voice/voiceParser.ts:129-131 | a date of the current year moved one year on lies after today |
| Calendar.DayInRangeIsTimeInRange | lib/voice/voiceParser.ts:99-100 | a day is a valid `Date` exactly when its midnight time value is |
| JsText.ToLowerIdempotent | lib/voice/voiceParser.ts:30 | lower-casing twice is lower-casing once |
| JsText.Trim | app/api/parse-voice/route.ts:88 | `trim` returns a substring, with only whitespace cut at either end and no whitespace left at its ends |
| JsText.Decimal | lib/voice/voiceParser.ts:171 | `toString` of a natural number is a non-empty digit string of that value, without a leading zero |
| JsText.DecimalCanonical | lib/voice/voiceParser.ts:171 | a digit string without a leading zero is the `toString` of its value |
| JsText.ParseIntOfDigits | lib/voice/voiceParser.ts:160 | `parseInt` of a digit string is its decimal value |
| JsText.ParseIntOfIntToString | app/api/parse-voice/route.ts:114 | `parseInt(String(n))` is n for every integer n |
| JsonValue.ParseIntOfNumber | app/api/parse-voice/route.ts:114 | `parseInt` of a JSON number gives that number back |
| ReplyCleanup.LineEnd | app/api/parse-voice/route.ts:85 | `.*` under the `m` flag stops at the first line terminator, or at the end of the text |
| ReplyCleanup.Clean | app/api/parse-voice/route.ts:82-88 | the cleaned reply contains no "```" and has no whitespace at either end |
| ReplyCleanup.StripFencesNoFence | app/api/parse-voice/route.ts:84 | removing "```" leaves no "```" behind, and cannot create a leading backquote |
| ReplyCleanup.StripCommentsKeepsNoFence | app/api/parse-voice/route.ts:85 | dropping comments cannot create a "```" |
| ReplyCleanup.DropCommaKeepsNoFence | app/api/parse-voice/route.ts:86-87 | dropping trailing commas cannot create a "```" |
| ReplyCleanup.TrimKeepsNoFence | app/api/parse-voice/route.ts:88 | trimming cannot create a "```" |
| ReplyCleanup.JsonFencesKeepPlainPrefix | app/api/parse-voice/route.ts:83 | text without a backquote passes the first rewrite unchanged |
| ReplyCleanup.FencesKeepPlainPrefix | app/api/parse-voice/route.ts:84 | text without a backquote passes the second rewrite unchanged |
| ReplyCleanup.FencedReplyUnwrapped | app/api/parse-voice/route.ts:83-84 | "```json", whitespace, a body without backquotes and "```" come out as exactly the body |
| ReplyCleanup.CommentsKeepPlainPrefix | app/api/parse-voice/route.ts:85 | text without a slash passes comment removal unchanged |
| ReplyCleanup.CommentRunsToLineEnd | app/api/parse-voice/route.ts:85 | a `//` removes everything up to the line terminator, which stays |
| ReplyCleanup.UrlIsCut | app/api/parse-voice/route.ts:85 | the `//` inside a URL string value cuts the rest of that line too |
| ReplyCleanup.CommaKeepsPlainPrefix | app/api/parse-voice/route.ts:86-87 | text without a comma passes the comma rewrites unchanged |
| ReplyCleanup.CommaBeforeCloseDropped | app/api/parse-voice/route.ts:86-87 | a comma, whitespace and the closing bracket become just the bracket |
| ReplyCleanup.TrailingCommasNotIdempotent | app/api/parse-voice/route.ts:86 | one pass turns ",,]" into ",]", which a second pass would turn into "]" |
| ReplyCleanup.IndexFrom | app/api/parse-voice/route.ts:91 | finds the first occurrence of a character from a position, or reports none |
| ReplyCleanup.LastIndexBefore | app/api/parse-voice/route.ts:91 | finds the last occurrence of a character before a position, or reports none |
| ReplyCleanup.ExtractObject | app/api/parse-voice/route.ts:91-94 | a match exists exactly when some `{` precedes some `}`, and it is the span from the first `{` to the last `}` |
| ReplyCleanup.BracePairFound | app/api/parse-voice/route.ts:91 | whenever some `{` precedes some `}`, the first `{` precedes the last `}` |
| ChatReply.ContentText | app/api/parse-voice/route.ts:75-79 | content is found only as a non-empty string |
| ChatReply.ContentOfChoice | app/api/parse-voice/route.ts:75 | the content of the first choice's message is read |
| ChatReply.NoContentCases | app/api/parse-voice/route.ts:75-79 | no choices, an empty list, or a content that is not a non-empty string all give no content |
| ParseVoiceRoute.KeptExactly | app/api/parse-voice/route.ts:101-123 | a field is dropped exactly when it is missing, null, false, 0, "" or the string "null" |
| ParseVoiceRoute.CoerceFields | app/api/parse-voice/route.ts:99-125 | each of the four text fields (destination, both dates, preferences) is present exactly when kept, and then unchanged; budget and travelers are present under the same test, with the value `parseInt` gives |
| ParseVoiceRoute.OtherKeysIgnored | app/api/parse-voice/route.ts:99-125 | results that agree on the six fields give the same data: other keys are discarded |
| ParseVoiceRoute.BudgetCoercion | app/api/parse-voice/route.ts:113-115 | a numeric budget comes back as itself, 0 is dropped, and "五千" becomes NaN |
| ParseVoiceRoute.NumberKept | app/api/parse-voice/route.ts:113-119 | a non-zero number is kept as itself; 0 is dropped |
| ParseVoiceRoute.WrittenNumberIsNaN | app/api/parse-voice/route.ts:114 | a budget written in words is kept as NaN |
| ParseVoiceRoute.ParseVoiceWithLlm | app/api/parse-voice/route.ts:16-130 | with no key, the key message; otherwise every failure inside the `try` becomes "语音内容解析失败", and success carries the coerced fields |
| ParseVoiceRoute.ParsedJson | app/api/parse-voice/route.ts:144 | the response has exactly the present fields, with NaN written as null |
| ParseVoiceRoute.Post | app/api/parse-voice/route.ts:132-152 | status 200, 400 or 500; 400 exactly when the transcript is falsy; 200 carries the parsed data |
| ParseVoiceRoute.NoTranscriptIsRejected | app/api/parse-voice/route.ts:137-139 | a missing or empty transcript gets 400 "缺少语音文本内容", before any model call |
| ParseVoiceRoute.FailuresReported | app/api/parse-voice/route.ts:142-150 | a missing key gives 500 with the key message; any other failure gives 500 "语音内容解析失败" |
| ParseVoiceRoute.FencedReplyAccepted | app/api/parse-voice/route.ts:74-125 | a reply that wraps an object in a json fence is parsed and coerced |
| ParseVoiceRoute.CleanFencedObject | app/api/parse-voice/route.ts:82-94 | clean-up and extraction recover the object from a json fence |
| ParseVoiceRoute.TrimNewline | app/api/parse-voice/route.ts:88 | trimming removes a trailing newline after an object |
| ParseVoiceRoute.ExtractWhole | app/api/parse-voice/route.ts:91 | text that starts with `{` and ends with `}` is extracted whole |
| PlanRoute.GeneratePlan | app/api/plan/route.ts:47-165 | with no key, the key message; otherwise every failure becomes "Failed to generate travel plan with LLM", and success returns the parsed object |
| PlanRoute.Post | app/api/plan/route.ts:167-209 | status 200, 400, 401 or 500; 401 exactly when the session lookup fails; 200 carries what the insert stored for the generated plan |
| PlanRoute.UnauthorizedFirst | app/api/plan/route.ts:170-175 | a failed session check answers 401 before the body is read |
| PlanRoute.MissingFieldsRejected | app/api/plan/route.ts:181-183 | a signed-in request gets 400 exactly when a required field is falsy |
| PlanRoute.ZeroCountsAsMissing | app/api/plan/route.ts:181 | a budget or head count of 0, or null, is rejected; preferences are optional |
| PlanRoute.GenerationFailureReported | app/api/plan/route.ts:161-164 | every failure inside generation reaches the client as one 500 message |
| PlanRoute.MissingContentFails | app/api/plan/route.ts:137-141 | a reply without `choices[0].message.content` is an error |
| PlanRoute.PlanReturnedUnchecked | app/api/plan/route.ts:154-160 | whatever object the cleaned reply parses to is returned, with no field check |
| PlanRoute.RowColumns | app/api/plan/route.ts:189-199 | the row takes the user id from the session and each column from the plan field of the same name, in camelCase |
| PlanRoute.SameCleanupInBothRoutes | app/api/plan/route.ts:143-157 | for the same reply, the plan route finds no object exactly when the voice route does |
| ExpenseSummary.Summarize | lib/database/expenses.ts:104-109 | the loop that updates the accumulator in place yields the fold of all rows |
| ExpenseSummary.GetExpenseSummary | lib/database/expenses.ts:100-111 | a query error becomes the "Failed to fetch expense summary: " message; null data gives {}; rows give exactly the fold: the categories seen plus "total" as keys ({} for no rows), per-category sums and the total |
| ExpenseSummary.SummaryEntries | lib/database/expenses.ts:104-108 | each category other than "total" maps to the sum of its amounts; "total" is the sum of all amounts plus, again, those of a category named "total" |
| ExpenseSummary.SummaryKeys | lib/database/expenses.ts:104-111 | the keys are the categories seen plus "total"; no rows give {} |
| ExpenseSummary.CategoryPresent | lib/database/expenses.ts:104-106 | a category other than "total" is a key exactly when some row has it |
| ExpenseSummary.SummaryExamples | lib/database/expenses.ts:104-109 | two meals and a taxi sum by category; a single expense filed under "total" is counted twice |
| PlannerPage.Planner.constructor | app/planner/page.tsx:14-24 | the form starts as the initial record, with no message |
| PlannerPage.Planner.HandleInputChange | app/planner/page.tsx:52-57 | sets one field and leaves the message alone |
| PlannerPage.Planner.ApplyVoiceReply | app/planner/page.tsx:96-118 | the form and message after a route reply, identical for the browser and iFlytek paths |
| PlannerPage.InitialValues | app/planner/page.tsx:14-21 | every field starts empty except travelers, which starts at "1" |
| PlannerPage.EditSetsOneField | app/planner/page.tsx:52-57 | an edit sets its field to the value and leaves every other field unchanged |
| PlannerPage.MergeByField | app/planner/page.tsx:100-108 | each field is overwritten exactly when the reply's value for it is truthy, and keeps its text otherwise |
| PlannerPage.MergeNumbers | app/planner/page.tsx:105-106 | numbers are stored as their decimal text; a budget of 0 leaves the field alone |
| PlannerPage.NaNBudgetKeepsField | app/planner/page.tsx:105 | a NaN budget from the route arrives as null and leaves the budget field unchanged |
| PlannerPage.FailureKeepsForm | app/planner/page.tsx:111-118 | a reply that is not a success leaves the form unchanged |
| PlannerPage.FailureColour | app/planner/page.tsx:398 | "语音解析失败：" + error is green exactly when the error text contains "成功" |
| PlannerPage.MessageColours | app/planner/page.tsx:110-117 | the success message is green; the retry message and the route's error messages are red |
| ScenicPhotos.CollectQueries | components/ScenicPhotos.tsx:34-52 | the nested loops push exactly the lookup list: three destination lookups, then one per qualifying activity in day and activity order |
| ScenicPhotos.PushActivityQueries | components/ScenicPhotos.tsx:43-51 | the inner loop appends exactly one day's lookups to those already pushed |
| ScenicPhotos.DestinationFirst | components/ScenicPhotos.tsx:36-52 | the list opens with the three destination lookups, and every later lookup has a location that is present and is not the destination |
| ScenicPhotos.ActivityQueriesExactly | components/ScenicPhotos.tsx:44-50 | a day's lookups are exactly those of its activities with a location that is present and is not the destination |
| ScenicPhotos.LaterQueriesQualify | components/ScenicPhotos.tsx:46 | no activity lookup is for a missing location or for the destination |
| ScenicPhotos.PhotoFor | components/ScenicPhotos.tsx:68-114 | a lookup without an Unsplash result gives the placeholder, which has a URL and is titled with the query |
| ScenicPhotos.UsableExactly | components/ScenicPhotos.tsx:55-58 | a photo is usable exactly when a lookup fulfilled with it and its URL is non-empty |
| ScenicPhotos.UsableAppend | components/ScenicPhotos.tsx:55-58 | the filter keeps the lookups' order |
| ScenicPhotos.KeptPhotos | components/ScenicPhotos.tsx:60 | at most eight photos are kept: all the usable ones, or the first eight |
| ScenicPhotos.KeptAreFirstUsable | components/ScenicPhotos.tsx:54-60 | the kept photos are the first usable ones, each from a fulfilled lookup with a URL |
| ScenicPhotos.AllUsable | components/ScenicPhotos.tsx:54-60 | when every lookup fulfilled with a URL, min(n, 8) photos are shown |
| ScenicPhotos.PlaceholdersShown | components/ScenicPhotos.tsx:98-113 | with no Unsplash results, one placeholder per lookup is shown, up to eight, each titled with its query |
| ScenicPhotos.MovesInRange | components/ScenicPhotos.tsx:116-122 | next and previous stay in [0, n), wrap at the ends, and undo each other |
| ScenicPhotos.NextTimesWraps | components/ScenicPhotos.tsx:116-118 | k presses of next, up to n, move k places round the circle |
| ScenicPhotos.FullTurn | components/ScenicPhotos.tsx:116-118 | n presses of next return to the starting photo |
| ScenicPhotos.Carousel.constructor | components/ScenicPhotos.tsx:21-22 | no photos, index 0 |
| ScenicPhotos.Carousel.Next | components/ScenicPhotos.tsx:116-118 | the index moves to (i + 1) mod n, offered only when n > 1; the photo list is unchanged |
| ScenicPhotos.Carousel.Prev | components/ScenicPhotos.tsx:120-122 | the index moves to (i − 1 + n) mod n, offered only when n > 1; the photo list is unchanged |
| ScenicPhotos.Carousel.Select | components/ScenicPhotos.tsx:198-201 | a thumbnail click sets the index to that thumbnail's position |
| ScenicPhotos.Carousel.Load | components/ScenicPhotos.tsx:60 | a finished fetch shows the kept photos from the first one (the corrected behaviour, see Findings) |
| ScenicPhotos.Loaded | components/ScenicPhotos.tsx:60 | after a load, the index is valid for the new list |
| ScenicPhotos.StaleIndexAsWritten | components/ScenicPhotos.tsx:60 | as written, viewing photo 6 of 8 and then loading 3 photos leaves an index with no photo |

## Findings

| source | as written | input that shows it | evidently intended | confidence | as-written member | corrected member |
|---|---|---|---|---|---|---|
| components/ScenicPhotos.tsx:60 | `setPhotos` replaces the list when a fetch finishes, but `currentIndex` keeps its old value; the render then reads `photos[currentIndex].url` (line 151) | on photo 6 of 8, the itinerary changes and the new fetch keeps 3 photos: the index stays 5 and `photos[5]` is undefined | show the new list from its first photo (reset the index to 0) | medium; not executed | ScenicPhotos.StaleIndexAsWritten | ScenicPhotos.Loaded |

## Left out

- Network and storage I/O are parameters: the model service, Unsplash and the database queries. The session lookup is a pair of values. `JSON.parse` is a function parameter that is not itself modelled (RFC 8259). Prompt text and console logging are not modelled.
- `Voice.VoiceParser.ParseVoiceInput`: dates are day numbers, not the "YYYY-MM-DD" strings `toISOString` prints. Local time is taken as UTC, so the shift of local midnight is not modelled.
- `Voice.VoiceParser.ExtractDateInfo`: the current time must be a valid `Date` time value (|t| ≤ 8.64 × 10^15 ms). Any real clock meets this.
- `JsText.ToLower` lower-cases ASCII letters only. No non-ASCII character lower-cases into a character the patterns look for.
- `parseInt` is exact on arbitrarily long digit strings. JavaScript loses precision beyond 2^53; every amount the extractor keeps is at most 1,000,000.
- JSON numbers are integers. These are not modelled:
  - fractional budgets and amounts;
  - `parseFloat` in the planner's submit handler (app/planner/page.tsx:214);
  - `toLocaleString` formatting.

  Expense amounts are integers.
- A JSON object is a map of its own keys. Inherited `Object.prototype` properties are not modelled.
- The V8 TypeError message texts are constants in the model. They cover:
  - a property read on a `null` body;
  - a `null` plan.
- `PlannerPage.Planner.ApplyVoiceReply`: a success reply whose body is `null` is modelled as the catch path (retry message, form unchanged). On the page the reads of that body run later, inside the state updater, so the success message is set and rendering then fails. The voice route never sends such a reply: its success body is always an object.
- `PlannerPage.Planner.ApplyVoiceReply`: these messages are not modelled:
  - the intermediate "正在解析语音内容..." message;
  - the recognition-error messages;
  - the unsupported-browser message.

  A non-string destination is stored in its string form.
- `ScenicPhotos.CollectQueries`: these shapes are not modelled:
  - a `days` value that is not an array, which throws inside the `try` and leaves the photos unchanged;
  - an activity whose `activity` text is missing.
- These carousel details are not modelled:
  - the loading flag;
  - the photo counter;
  - the placeholder's random number, which is a parameter.
- `ScenicPhotos.Carousel.Load`: models the corrected reset of the index, not the stale index the code keeps (see Findings).
- Promise settlement order and React state batching are not modelled. Only the resulting lists and index transitions are.
- The rest of the application is not part of this model:
  - rendering, maps and navigation;
  - iFlytek recording;
  - the dashboard and the other pages.
