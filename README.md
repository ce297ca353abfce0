# SOS Bombones storefront — a verified model of its core logic

SOS Bombones is a chocolate shop's web storefront. It has a React client, a
serverless API and an older standalone Express backend. This project models in Dafny the
parts of it that decide something:

- **The chatbot's answer resolution**, in both backends. This covers the comparison form of text
  (lower case, canonical decomposition, combining marks removed), the
  first-match search over the knowledge table, and the fallbacks to a
  maintenance text, a model prompt built from the history, and a fixed apology.
  It also covers the knowledge probe script that repeats the matching loop.
- **The checkout endpoints**. Each rejects an empty cart, maps the cart lines to
  payment-processor items with their defaults, and builds the preference body.
- **The cart**. It adds, removes, sets quantities and clears, and derives the
  item count and the total. Its ids stay unique.
- **The admin dashboard's form helpers**. These are the keyword parser and its
  `", "` join, removal of an image by index, the secondary-image upload loop,
  the main-image size limit, the file extension rule, the order-status label,
  and which users may be deleted.
- **The chat widget**. It keeps the transcript, sends at most ten earlier
  messages as history, appends one reply or one error notice per accepted send,
  and renders bold spans and line breaks.
- **The small state machines of the pages**. These are the product page's
  quantity stepper and add-to-cart, the route guard, the home carousel, and
  the contact details and social links read from the site settings with
  fallbacks.

External services are function parameters or inputs:

- the knowledge table;
- the API key;
- the language model;
- the payment processor;
- the storage upload;
- the chat endpoint as the widget sees it;
- the clock.

`Text` holds the JavaScript string built-ins the code relies on (`includes`,
`trim`, `split`, `join`, `String(n)`). `Normalization` holds
`toLowerCase().normalize("NFD").replace(/[̀-ͯ]/g, "")`. `Wrappers` holds
`Option` and `Result`. `ChatTypes` holds the knowledge entries, the chat request
and the first-match search.

## Model

| member | source | states |
|---|---|---|
| Normalization.ToLower | api/index.js:88 | lower-casing keeps the length and maps each character independently |
| Normalization.Decompose | api/index.js:88 | a character decomposes to itself or to an ASCII base letter followed by one combining mark |
| Normalization.StripMarks | api/index.js:88 | the result holds no code point of U+0300..U+036F, keeps the order of the rest, and is the input when there were none |
| Normalization.Normalize | api/index.js:87-88 | the comparison form contains no combining diacritical mark |
| Normalization.StripMarksAppend | api/index.js:88 | removing marks distributes over concatenation |
| Normalization.NormalizeCons | api/index.js:87-88 | the comparison form is built character by character |
| Normalization.NormalizeAppend | api/index.js:87-88 | the comparison form distributes over concatenation |
| Normalization.NormalizePointwise | api/index.js:87-88 | text whose characters each normalise to one character normalises to exactly those characters |
| Normalization.NormalizeAsciiLetter | api/index.js:87-88 | an ASCII letter compares as its lower case |
| Normalization.NormalizeCharIsNormal | api/index.js:87-88 | every character a character normalises to is left alone by normalisation |
| Normalization.NormalizeFixes | api/index.js:87-88 | normalisation is the identity on text made of normal characters |
| Normalization.NormalizeIsNormal | api/index.js:87-88 | every character of a comparison form is normal |
| Normalization.NormalizeIdempotent | api/index.js:87-88 | normalising twice is normalising once |
| Text.IncludesIff | api/index.js:97 | `includes` holds exactly when the pattern occurs at some position |
| Text.Includes | api/index.js:97 | a pattern longer than the text is never included; with `IncludesIff`, `includes` holds exactly when the pattern occurs at some position |
| Text.IncludesSameLength | backend/server.js:153 | between strings of equal length `includes` is equality |
| Text.Trim | src/pages/AdminDashboard.tsx:84 | `trim` leaves no white space at either end and never lengthens |
| Text.TrimFixes | src/pages/AdminDashboard.tsx:84 | `trim` leaves a string without white space at its ends unchanged |
| Text.TrimKeepsChars | src/pages/AdminDashboard.tsx:84 | `trim` only removes characters |
| Text.TrimStartDropsSpaces | src/components/Chatbot.tsx:40 | what `trimStart` drops is all white space |
| Text.TrimEndDropsSpaces | src/components/Chatbot.tsx:40 | what `trimEnd` drops is all white space |
| Text.TrimStart | src/components/Chatbot.tsx:40 | `trimStart` never lengthens and leaves no white space at the front |
| Text.TrimEnd | src/components/Chatbot.tsx:40 | `trimEnd` never lengthens, keeps the first character and leaves no white space at the back |
| Text.Split | src/pages/AdminDashboard.tsx:84 | `split` on a character gives at least one piece and no piece contains the separator |
| Text.SplitJoin | src/pages/AdminDashboard.tsx:84 | splitting a join on the same separator gives back the pieces |
| Text.JoinSplit | src/pages/AdminDashboard.tsx:143 | joining the pieces of a split gives back the string |
| Text.JoinWith | src/pages/AdminDashboard.tsx:143 | joining no pieces gives ""; otherwise the first piece opens the joined text; `SplitJoin` and `JoinSplit` make it the inverse of `split` |
| Text.NatToString | api/index.js:54 | the decimal text of a number is non-empty, all digits and without a leading zero |
| Text.NatToStringRoundTrip | api/index.js:54 | reading the decimal text of a number gives the number back |
| Text.NatToStringInjective | api/index.js:54 | different numbers have different decimal texts |
| ChatTypes.FirstWhere | api/index.js:96-99 | the first index whose element satisfies the test, with none before it; none exactly when no element does |
| ChatTypes.FirstWhereAt | api/index.js:96-99 | an index that satisfies the test with none before it is the one found |
| ApiServer.LocalAnswer | api/index.js:86-104 | an answer exists exactly when the knowledge is present and some entry has a keyword with a non-empty comparison form inside the message's; it is the first such entry's answer |
| ApiServer.FindLocalAnswer | api/index.js:92-103 | the loop with early return gives the first matching entry's answer, or none |
| ApiServer.EntryMatchesIff | api/index.js:97 | an entry matches exactly when some keyword has a non-empty comparison form occurring in the message's |
| ApiServer.KeywordHits | api/index.js:97 | a keyword hits only when its comparison form is non-empty and no longer than the message's |
| ApiServer.EntryMatches | api/index.js:97 | an entry with no keywords never matches, and no entry matches the empty message |
| ApiServer.BlankKeywordNeverHits | api/index.js:97 | a keyword that normalises to "" never hits, not even the empty message |
| ApiServer.BlankEntryNeverMatches | api/index.js:97 | an entry whose keywords all normalise to "" never matches |
| ApiServer.KeywordHitsInfix | api/index.js:97 | a keyword hits any message that contains it, whatever the surrounding text |
| ApiServer.AcuteCapitalI | api/index.js:88 | a capital I with an acute accent compares as "i" |
| ApiServer.EnviosComparisonForm | api/index.js:88 | "ENVÍOS" and "envios" have the same comparison form |
| ApiServer.KeywordHitsSameForm | api/index.js:97 | a keyword hits every message containing a word with its comparison form, whatever its case and accents |
| ApiServer.SameFormAnswer | api/index.js:94-99 | a single entry answers every message containing a word with its keyword's comparison form |
| ApiServer.AccentInsensitiveAnswer | api/index.js:94-99 | an entry keyed "envios" answers a message that writes "ENVÍOS" |
| ApiServer.FirstMatchWins | api/index.js:96-98 | of two matching entries the earlier one answers |
| ApiServer.RoleLabel | api/index.js:124 | the label is "Usuario" exactly for the role "user", and "Bot" for every other role |
| ApiServer.HistoryTextAppend | api/index.js:123-126 | the history lines of two stretches of history follow each other |
| ApiServer.HistoryTextCons | api/index.js:123-126 | the first turn's line comes first |
| ApiServer.HistoryText | api/index.js:123-126 | the history text is empty exactly for an empty history, and otherwise ends the last turn's line with a new line |
| ApiServer.UserLine | api/index.js:128 | the closing line holds the user's message verbatim after "Usuario: " |
| ApiServer.PromptLayout | api/index.js:121-128 | the prompt is the preamble, then the history lines, then the user's line |
| ApiServer.Prompt | api/index.js:121-128 | every prompt opens with the persona preamble; without a history array it is the preamble and the user's line only; its length is the sum of its three parts |
| ApiServer.PromptIgnoresNonArrayHistory | api/index.js:122 | a missing or non-array history gives the prompt of an empty history |
| ApiServer.BuildPrompt | api/index.js:121-128 | the line-by-line accumulation yields exactly the specified prompt |
| ApiServer.Chat | api/index.js:106-138 | the status is 200 or 500, a 500 always carries the fixed apology, and a request without a message gets it |
| ApiServer.HandleChat | api/index.js:106-138 | the handler's steps give exactly the specified reply |
| ApiServer.LocalAnswerIsReply | api/index.js:111-112 | a non-empty local answer is the reply, whatever the key and the model |
| ApiServer.NoKeyMeansMaintenance | api/index.js:115-116 | without a key and a usable local answer the reply is the maintenance text, and it does not depend on the model |
| ApiServer.ModelTextIsReply | api/index.js:130-132 | with a key and no usable local answer the model's text for the prompt is the reply |
| ApiServer.ModelErrorIsHidden | api/index.js:134-136 | a failing model call gives status 500 and the apology, whatever the error |
| ApiServer.PreferenceItems | api/index.js:53-59 | one item per line in order, the id falls back to the 1-based position, the title is the name or "undefined", quantity and price pass through, currency "ARS" |
| ApiServer.PreferenceItemIds | api/index.js:54 | lines without ids at different positions get different non-empty ids |
| ApiServer.CreatePreference | api/index.js:44-81 | status 400 exactly for a missing or empty cart; otherwise the processor's id and link for the built body, or a 500 with its error message |
| MercadoPago.BackUrlsFor | api/index.js:65-69 | the three return URLs lie under the frontend URL and are distinct |
| MercadoPago.OrderReference | api/index.js:71 | the external reference starts with "order_" and carries more after it |
| MercadoPago.PayerOf | api/index.js:64 | a payer is sent exactly when the email is present and non-empty, and it is that email |
| MercadoPago.Body | api/index.js:62-72 | the body carries the items, the payer rule, the back URLs, "SOS BOMBONES" and the order reference |
| LegacyServer.PreferenceItems | backend/server.js:61-67 | one item per line in order with defaults: position for id, "Producto" for the title, 1 for a zero or NaN quantity, 0 for a NaN price |
| LegacyServer.ItemsAlwaysUsable | backend/server.js:61-67 | no item has an empty id or title, a missing or zero quantity, or a missing price |
| LegacyServer.CreatePreference | backend/server.js:49-113 | status 400 exactly for a missing or empty cart; otherwise the ids with the sandbox link, or a 500 with the error message and the error object as `full_error` |
| LegacyServer.LocalAnswer | backend/server.js:141-161 | an answer exists exactly when some entry has a lower-cased keyword inside the lower-cased message; the first such entry answers |
| LegacyServer.FindLocalAnswer | backend/server.js:151-156 | the loop with early return gives the specified answer |
| LegacyServer.KeywordHits | backend/server.js:153 | an empty keyword hits every message, and a keyword longer than the message never hits |
| LegacyServer.EntryMatches | backend/server.js:153 | an entry with no keywords never matches |
| LegacyServer.EntryMatchesIff | backend/server.js:142-153 | an entry matches exactly when the lower case of one of its keywords occurs in the lower-cased message |
| LegacyServer.EmptyKeywordMatchesEverything | backend/server.js:153 | an entry with an empty keyword matches every message |
| LegacyServer.KeywordHitsAnyCase | backend/server.js:142-153 | a keyword hits any message containing it in any letter case |
| LegacyServer.AccentedMessageMissesPlainKeyword | backend/server.js:142-153 | "envíos" does not hit the keyword "envios" |
| LegacyServer.Prompt | backend/server.js:193-195 | the prompt is the fixed template followed by the message, and nothing of the history |
| LegacyServer.PromptInjective | backend/server.js:193-195 | different messages give different prompts |
| LegacyServer.Chat | backend/server.js:167-210 | a request without a message gets no reply; a 500 carries the error "ai_error" and the apology, and only a 500 does; a plain 200 reply is the local answer or the model's text for the prompt |
| LegacyServer.HandleChat | backend/server.js:167-210 | the handler's steps give exactly the specified outcome |
| LegacyServer.NoKeyMeansMaintenance | backend/server.js:180-187 | without a key and a usable local answer the reply is the maintenance text with "missing_api_key", independent of the model |
| LegacyServer.LocalAnswerIsReply | backend/server.js:172-176 | a non-empty local answer is the reply, whatever the key and the model |
| LegacyServer.ModelTextIsReply | backend/server.js:193-201 | with a key and no usable local answer the model's text for the message's prompt is the reply |
| LegacyServer.ModelErrorIsHidden | backend/server.js:203-209 | a failing model call gives status 500, "ai_error" and the apology, whatever the error |
| KnowledgeProbe.ProbeLine | backend/test-db.js:27-42 | "NO MATCH" exactly when no entry has a keyword inside the message's comparison form; a match names the first matching entry's first keyword; the line names the probed message |
| KnowledgeProbe.ProbeLineAt | backend/test-db.js:30-40 | a message whose first matching entry is entry i is logged with entry i's first keyword |
| KnowledgeProbe.KeywordHits | backend/test-db.js:31-33 | a keyword whose comparison form is empty hits every message, since the probe has no guard; a longer form never hits |
| KnowledgeProbe.EntryMatches | backend/test-db.js:31-34 | an entry with no keywords never matches |
| KnowledgeProbe.EntryMatchesIff | backend/test-db.js:31-34 | an entry matches exactly when the comparison form of one of its keywords, empty or not, occurs in the message's |
| KnowledgeProbe.LineText | backend/test-db.js:17-42 | the fetch error follows "Error fetching knowledge: "; a match line names the message and then the first keyword; a miss line names the message |
| KnowledgeProbe.ProbeLines | backend/test-db.js:27-43 | one line per test message, in order |
| KnowledgeProbe.ProbeLog | backend/test-db.js:12-44 | a fetch error is logged alone, before any matching; otherwise the banner followed by exactly the probe lines of the test messages, in order |
| KnowledgeProbe.ProbeMessage | backend/test-db.js:28-42 | the scan with its `found` flag and `break` logs the specified line |
| KnowledgeProbe.ProbeMessages | backend/test-db.js:27-43 | the outer loop logs the specified lines |
| KnowledgeProbe.TestKnowledge | backend/test-db.js:12-44 | the script logs the specified log |
| KnowledgeProbe.AgreesWithChatEndpoint | backend/test-db.js:31-34 | without blank keywords the probe matches exactly as the chat endpoint does |
| KnowledgeProbe.BlankKeywordMatchesEverything | backend/test-db.js:31-34 | a keyword that normalises to "" matches every message in the probe but not at the endpoint |
| CartContext.Increased | src/context/CartContext.tsx:37-41 | the matching lines gain the quantity; length and every other line are unchanged |
| CartContext.Added | src/context/CartContext.tsx:33-50 | a present id raises exactly the matching line's quantity and leaves every other line as it was; a new id appends exactly one line at the end; the id is present afterwards |
| CartContext.Removed | src/context/CartContext.tsx:53-55 | the lines kept are exactly those with another id |
| CartContext.RemovedSingle | src/context/CartContext.tsx:54 | a single line survives exactly when its id differs |
| CartContext.RemovedAppend | src/context/CartContext.tsx:54 | removal works piece by piece, so the surviving lines keep their relative order |
| CartContext.WithQuantity | src/context/CartContext.tsx:59-63 | only the matching lines' quantity changes; length, order and other fields stay |
| CartContext.Updated | src/context/CartContext.tsx:57-64 | a quantity below 1 changes nothing; otherwise exactly the matching lines get the new quantity and nothing else changes |
| CartContext.CountIncreased | src/context/CartContext.tsx:37-41 | raising a line's quantity raises the count by that much per matching line |
| CartContext.TotalIncreased | src/context/CartContext.tsx:37-41 | raising a line's quantity raises the total by that much times its price |
| CartContext.OccurrencesUnique | src/context/CartContext.tsx:35 | with unique ids an id occurs once or not at all |
| CartContext.PriceOfAbsent | src/context/CartContext.tsx:43-49 | an absent id contributes nothing |
| CartContext.CountAppend | src/context/CartContext.tsx:68-69 | appending a line adds its quantity to the count and its value to the total |
| CartContext.Count | src/context/CartContext.tsx:68 | no contract of its own: the summed quantities; `CountBounds`, `CountAppend` and the lemmas per operation characterise it |
| CartContext.CountBounds | src/context/CartContext.tsx:68 | the count is never negative when no quantity is, and is at least the number of lines when each line holds at least one |
| CartContext.LineValue | src/context/CartContext.tsx:69 | a line with a non-negative price and quantity adds nothing negative to the total |
| CartContext.Total | src/context/CartContext.tsx:69 | no contract of its own: the summed line values; `TotalNonNegative`, `CountAppend` and the lemmas per operation characterise it |
| CartContext.TotalNonNegative | src/context/CartContext.tsx:69 | the total is never negative when no price or quantity is |
| CartContext.AddedCountAndTotal | src/context/CartContext.tsx:33-50 | adding raises the count by the quantity and the total by the quantity times the price |
| CartContext.AddedKeepsUnique | src/context/CartContext.tsx:35-49 | adding keeps the ids pairwise distinct |
| CartContext.RemovedCountAndTotal | src/context/CartContext.tsx:53-55 | removing lowers the count and the total by exactly the removed line's share |
| CartContext.RemovedKeepsUnique | src/context/CartContext.tsx:53-55 | removing keeps the ids pairwise distinct |
| CartContext.WithQuantityCount | src/context/CartContext.tsx:59-63 | setting a quantity replaces the line's share of the count |
| CartContext.UpdatedKeepsIds | src/context/CartContext.tsx:57-64 | updating keeps every line's id in place, so unique ids stay unique |
| CartContext.Cart.constructor | src/context/CartContext.tsx:24-27 | the cart starts with the saved lines, or empty |
| CartContext.Cart.AddToCart | src/context/CartContext.tsx:33-51 | the lines become the added lines (the matching line raised, or a new line appended); with unique ids they stay unique and the count grows by the quantity |
| CartContext.Cart.RemoveFromCart | src/context/CartContext.tsx:53-55 | the lines become the others in their order; the id is gone and the count drops by its quantity |
| CartContext.Cart.UpdateQuantity | src/context/CartContext.tsx:57-64 | below 1 nothing changes; otherwise exactly the matching lines get the new quantity |
| CartContext.Cart.ClearCart | src/context/CartContext.tsx:66-69 | the cart is empty, with count and total 0 |
| CartContext.Cart.CartCount | src/context/CartContext.tsx:68 | the badge count is at least the number of lines when each line holds at least one |
| CartContext.Cart.CartTotal | src/context/CartContext.tsx:69 | the shown total is never negative when no price or quantity is |
| AdminDashboard.Cleaned | src/pages/AdminDashboard.tsx:84 | the kept pieces are non-empty and trimmed |
| AdminDashboard.CleanedSingle | src/pages/AdminDashboard.tsx:84 | a piece is kept, trimmed, exactly when something other than white space is left of it |
| AdminDashboard.CleanedAppend | src/pages/AdminDashboard.tsx:84 | cleaning works piece by piece, so the kept pieces stay in order |
| AdminDashboard.SplitBlankPiece | src/pages/AdminDashboard.tsx:84 | "a, ,b" splits into "a", a lone blank and "b" |
| AdminDashboard.CleanedBlankPiece | src/pages/AdminDashboard.tsx:84 | the lone blank piece is dropped and "a" and "b" are kept |
| AdminDashboard.ParseSkipsBlankPiece | src/pages/AdminDashboard.tsx:84 | the field "a, ,b" saves exactly the keywords "a" and "b" |
| AdminDashboard.CleanedKeepsOut | src/pages/AdminDashboard.tsx:84 | trimming and dropping pieces adds no character |
| AdminDashboard.ParseKeywords | src/pages/AdminDashboard.tsx:84 | no keyword is empty, padded or contains a comma |
| AdminDashboard.ParseJoinRoundTrip | src/pages/AdminDashboard.tsx:84-143 | parsing the `", "`-join of non-empty, trimmed, comma-free keywords gives them back |
| AdminDashboard.ParseIdempotent | src/pages/AdminDashboard.tsx:84-143 | opening and saving a saved entry again leaves its keywords unchanged |
| AdminDashboard.JoinKeywords | src/pages/AdminDashboard.tsx:143 | no keywords show as ""; otherwise the first keyword opens the field; `ParseJoinRoundTrip` makes parsing undo it |
| AdminDashboard.WithoutIndex | src/pages/AdminDashboard.tsx:530 | one image fewer when the index is in range, none otherwise |
| AdminDashboard.WithoutIndexIsSplice | src/pages/AdminDashboard.tsx:530 | exactly the image at the index is removed and the others keep their order |
| AdminDashboard.Extension | src/pages/AdminDashboard.tsx:549 | the extension is the dot-free text after the last dot, or the whole name without a dot |
| AdminDashboard.UploadAll | src/pages/AdminDashboard.tsx:548-555 | a successful upload yields one URL per file |
| AdminDashboard.UploadAllOk | src/pages/AdminDashboard.tsx:548-555 | the uploads succeed exactly when every file uploads |
| AdminDashboard.UploadAllUrls | src/pages/AdminDashboard.tsx:548-555 | the i-th URL is the i-th file's |
| AdminDashboard.UploadAllErr | src/pages/AdminDashboard.tsx:551-552 | the first failing file's error is the one reported |
| AdminDashboard.UploadErrPropagates | src/pages/AdminDashboard.tsx:551-552 | a failure after successful uploads is the reported error |
| AdminDashboard.StatusLabel | src/pages/AdminDashboard.tsx:285 | "Pagado" exactly for "paid" or "approved", "Pendiente" otherwise |
| AdminDashboard.LabelMatchesBadge | src/pages/AdminDashboard.tsx:284-285 | the green badge goes exactly with the "Pagado" label |
| AdminDashboard.GreenBadge | src/pages/AdminDashboard.tsx:284 | no contract of its own: the green colour for "paid" or "approved"; `LabelMatchesBadge` proves it goes exactly with the "Pagado" label |
| AdminDashboard.EmailShown | src/pages/AdminDashboard.tsx:324-328 | the email is shown exactly for admins |
| AdminDashboard.DeleteExactlyWhenPrivate | src/pages/AdminDashboard.tsx:347-373 | the delete button is offered exactly for users whose email is private, the non-admins |
| AdminDashboard.CanDelete | src/pages/AdminDashboard.tsx:347 | no contract of its own: deletion for every role but "admin"; `DeleteExactlyWhenPrivate` proves it is offered exactly where the email is not shown |
| AdminDashboard.ProductForm.constructor | src/pages/AdminDashboard.tsx:138-150 | the form opens with the given images, not uploading |
| AdminDashboard.ProductForm.RemoveSecondaryImage | src/pages/AdminDashboard.tsx:530 | the images lose exactly the one at the index; nothing else changes |
| AdminDashboard.ProductForm.UploadSecondaryImages | src/pages/AdminDashboard.tsx:542-561 | no files change nothing; success appends the URLs after the existing images; failure keeps the images and alerts "Error: " with the message; uploading ends false |
| AdminDashboard.ProductForm.UploadMainImage | src/pages/AdminDashboard.tsx:579-600 | a file over 2 MB is refused with its alert before any upload; otherwise the main image becomes the URL or the error is alerted |
| Chatbot.SentHistory | src/components/Chatbot.tsx:52-55 | the history has the last ten messages, or all when fewer |
| Chatbot.SentHistoryIsTail | src/components/Chatbot.tsx:52-55 | turn i is the i-th of the last messages, with its sender as role |
| Chatbot.HistoryLabelsAgree | src/components/Chatbot.tsx:52-55 | when the widget is pointed at the /api chat endpoint, that server labels the widget's user messages "Usuario" and its replies "Bot" |
| Chatbot.RoleOf | src/components/Chatbot.tsx:53 | a message is sent with the role "user" exactly when the visitor wrote it |
| Chatbot.FailureText | src/components/Chatbot.tsx:68-79 | a thrown error keeps its message; an error body's text is used when non-empty |
| Chatbot.ReplyText | src/components/Chatbot.tsx:75-87 | a non-empty reply text is shown as it is; anything else is shown after the error prefix |
| Chatbot.ChatWidget.constructor | src/components/Chatbot.tsx:13-17 | the transcript opens with exactly the greeting, an empty field and no pending reply |
| Chatbot.ChatWidget.SendMessage | src/components/Chatbot.tsx:38-91 | blank input or a pending reply changes nothing; otherwise the trimmed message and exactly one bot message are appended, the field is cleared and loading ends false |
| ChatMarkup.CloseAt | src/components/Chatbot.tsx:129 | the lazy match closes at the first double asterisk on the same line |
| ChatMarkup.BoldPlain | src/components/Chatbot.tsx:129 | text without asterisks is not changed by the bold replacement |
| ChatMarkup.BoldSpan | src/components/Chatbot.tsx:129 | a one-line span between double asterisks becomes a strong element |
| ChatMarkup.CloseAtSpan | src/components/Chatbot.tsx:129 | the scan over a starless one-line span stops right after it |
| ChatMarkup.Bold | src/components/Chatbot.tsx:129 | the bold replacement never shortens the text; `BoldPlain` and `BoldSpan` pin what it does to plain text and to a span |
| ChatMarkup.LineBreaksNoNewLine | src/components/Chatbot.tsx:129 | no new line survives the break replacement |
| ChatMarkup.LineBreaksPlain | src/components/Chatbot.tsx:129 | text without new lines is not changed by the break replacement |
| ChatMarkup.LineBreaksAppend | src/components/Chatbot.tsx:129 | the break replacement works piece by piece |
| ChatMarkup.LineBreaks | src/components/Chatbot.tsx:129 | the break replacement never shortens the text and empties only the empty text; `LineBreaksNoNewLine`, `LineBreaksPlain` and `LineBreaksNewLine` pin it |
| ChatMarkup.Render | src/components/Chatbot.tsx:129 | the rendered markup holds no raw new line |
| ChatMarkup.RenderPlain | src/components/Chatbot.tsx:129 | plain one-line text renders as written |
| ChatMarkup.BoldNewLine | src/components/Chatbot.tsx:129 | a new line never opens a bold span |
| ChatMarkup.LineBreaksNewLine | src/components/Chatbot.tsx:129 | a new line becomes `<br/>` |
| ChatMarkup.RenderBoldLine | src/components/Chatbot.tsx:129 | a bold span followed by a new line renders as a strong element and a break |
| ProductDetail.AsCartProduct | src/pages/ProductDetail.tsx:52 | the cart receives the product's id, name, price and image |
| ProductDetail.Decremented | src/pages/ProductDetail.tsx:136 | one less, but never below 1 |
| ProductDetail.Incremented | src/pages/ProductDetail.tsx:144 | one more, but never above the stock |
| ProductDetail.IsCustomBox | src/pages/ProductDetail.tsx:66 | no contract of its own: the product is in the custom-box category; `StockLabel` and the click methods state what it hides |
| ProductDetail.ControlsShown | src/pages/ProductDetail.tsx:129-130 | no contract of its own: the stepper and the add button are rendered outside the custom-box category; the click methods do nothing when they are not |
| ProductDetail.ControlsEnabled | src/pages/ProductDetail.tsx:138-156 | enabled controls are shown and have at least one unit in stock |
| ProductDetail.AfterPresses | src/pages/ProductDetail.tsx:136-144 | no contract of its own: the presses applied in order; `PressesStayInRange` and `PlusReachesStock` characterise it |
| ProductDetail.PressesStayInRange | src/pages/ProductDetail.tsx:136-144 | with stock on hand no run of presses leaves the range 1..stock |
| ProductDetail.PlusReachesStock | src/pages/ProductDetail.tsx:144 | enough presses on plus reach exactly the stock |
| ProductDetail.StockLabel | src/pages/ProductDetail.tsx:120-126 | no label for custom boxes; "En Stock (n disponibles)" with stock, "Agotado" without |
| ProductDetail.CategoryLabel | src/pages/ProductDetail.tsx:111 | the category name, or "Chocolate" when there is none |
| ProductDetail.CustomBoxLink | src/pages/ProductDetail.tsx:174 | the WhatsApp link to the shop names the product |
| ProductDetail.CustomBoxLinkInjective | src/pages/ProductDetail.tsx:174 | different products give different links |
| ProductDetail.ProductPage.constructor | src/pages/ProductDetail.tsx:15 | the quantity starts at 1 |
| ProductDetail.ProductPage.ClickDecrement | src/pages/ProductDetail.tsx:135-139 | the enabled minus button sets the clamped decrement; disabled or hidden, nothing changes; the quantity stays valid |
| ProductDetail.ProductPage.ClickIncrement | src/pages/ProductDetail.tsx:143-147 | the enabled plus button sets the clamped increment; disabled or hidden, nothing changes; the quantity stays valid |
| ProductDetail.ProductPage.ClickAddToCart | src/pages/ProductDetail.tsx:47-54 | without a user the page goes to /login and the cart is untouched; with one the product is added with exactly the selected quantity and the alert shown |
| RouteGuard.Guard | src/components/ProtectedRoute.tsx:8-27 | spinner exactly while loading; /login exactly without a user; / exactly for a non-admin on an admin route; the page otherwise |
| RouteGuard.SignedInPassesPlainRoute | src/components/ProtectedRoute.tsx:8-27 | any signed-in user passes a route that does not ask for an admin |
| RouteGuard.AdminRouteIsStricter | src/components/ProtectedRoute.tsx:23-27 | an admin route lets through only users a plain route lets through |
| RouteGuard.RedirectTargets | src/components/ProtectedRoute.tsx:19-25 | the guard redirects only to /login or / |
| HomeCarousel.Next | src/pages/Home.tsx:17 | a tick moves to the next image and wraps from the last to the first |
| HomeCarousel.AfterTicks | src/pages/Home.tsx:16-18 | the index stays in range after any number of ticks |
| HomeCarousel.AfterTicksIsShift | src/pages/Home.tsx:16-18 | after n ticks the index has moved n images on, cyclically |
| HomeCarousel.FullRoundReturns | src/pages/Home.tsx:16-18 | a full round of ticks returns to the starting image |
| HomeCarousel.EveryImageComesUp | src/pages/Home.tsx:16-18 | from any index every image is shown within one round |
| HomeCarousel.Opacities | src/pages/Home.tsx:30-33 | exactly the slide at the current index is opaque |
| HomeCarousel.ExactlyOneShown | src/pages/Home.tsx:30-33 | exactly one slide is shown at a time |
| HomeCarousel.Carousel.constructor | src/pages/Home.tsx:7 | the carousel starts at the first image |
| HomeCarousel.Carousel.Tick | src/pages/Home.tsx:17 | a tick moves to the next index and keeps it in range |
| HomeCarousel.Carousel.ClickDot | src/pages/Home.tsx:62 | clicking dot k shows image k |
| SiteSettings.FromRows | src/pages/Contact.tsx:14 | the folded map has exactly the keys of the rows |
| SiteSettings.LastRowWins | src/components/SocialFloatingButtons.tsx:14 | a key's value is that of the last row carrying it |
| SiteSettings.Loaded | src/pages/Contact.tsx:13-15 | no data leaves the settings empty; data gives exactly the rows' keys |
| SiteSettings.LookupNonEmpty | src/pages/Contact.tsx:40 | a lookup with a non-empty fallback is never empty |
| SiteSettings.NoDataGivesFallbacks | src/pages/Contact.tsx:13-40 | without data every lookup gives its fallback |
| SiteSettings.LookupSeesLastRow | src/pages/Contact.tsx:14-40 | a non-empty value in the last row with its key is what the lookup gives |
| SiteSettings.Lookup | src/pages/Contact.tsx:40-87 | a stored non-empty value is used; a missing or empty one gives the fallback, as `||` does |
| ContactPage.WhatsAppLink | src/pages/Contact.tsx:40 | the link is `https://wa.me/` followed by the configured number or '5493876856022' |
| ContactPage.DetailsFor | src/pages/Contact.tsx:40-87 | each detail is its setting or its fallback, and the mail link is `mailto:` and the shown address |
| ContactPage.DetailsNeverBlank | src/pages/Contact.tsx:40-87 | no detail is ever blank |
| ContactPage.NoDataShowsDefaults | src/pages/Contact.tsx:40-87 | without settings the page shows the shop's number, 'Ibazeta 580, Salta', '3876856022' and its email |
| ContactPage.MailLinkMatchesText | src/pages/Contact.tsx:86-87 | the mail link opens exactly the address displayed |
| SocialButtons.Links | src/components/SocialFloatingButtons.tsx:21-59 | exactly five links in the order Ubicación, TikTok, WhatsApp, Instagram, Facebook, each with its setting or fallback |
| SocialButtons.LocationIsFixed | src/components/SocialFloatingButtons.tsx:25 | no setting changes the location link |
| SocialButtons.NoButtonIsBlank | src/components/SocialFloatingButtons.tsx:35-57 | every link leads somewhere |
| SocialButtons.WhatsAppAgreesWithContactPage | src/components/SocialFloatingButtons.tsx:45 | the WhatsApp button and the contact page's card open the same chat |
| SocialButtons.Delays | src/components/SocialFloatingButtons.tsx:94 | the first button waits 0 ms and each later one 50 ms more |

## Left out

- Network and SDK calls are not modelled. This covers Supabase queries, storage uploads and RPCs, the payment processor's `Preference.create`, the language model's `generateContent` and `fetch`. Their results are inputs or function parameters.
- Express plumbing is left out: CORS, `listen`, the health routes, the webhook stub and the process-level error handler carry no decision logic.
- Unicode case mapping and canonical decomposition are concrete only for ASCII and the Latin-1 letters. Every other character is left as it is by both. The removal of U+0300..U+036F is exact.
- Prices are whole numbers (for example cents). Floating point, `parseFloat`, `toFixed` and NaN arithmetic are not modelled.
- `parseInt` and `parseFloat` are taken as already applied. A line's quantity and price are an optional number, absent for NaN.
- ApiServer.PreferenceItems takes the title as the name, or "undefined" when the name is missing. Non-string names are not modelled.
- ApiServer.CreatePreference: the items are always a list. A truthy `items` that is not an array makes `items.map` throw, which ends in the same 500 as a processor error; that path is not modelled.
- LegacyServer.CreatePreference: the 500 body's `full_error` is recorded only as present. The processor's error object it serialises is not modelled, since only the error's message is an input.
- ApiServer.Prompt: a history turn always has a message string. A turn without one, which the template writes as "undefined", is not modelled.
- The keywords column of the knowledge table is taken to be an array of strings. A row whose keywords are not an array, which would throw inside the loop, is not modelled.
- ApiServer.LocalAnswer: an exception inside the knowledge query counts as no knowledge (`None`), since both lead to no local answer.
- LegacyServer.Chat: a request without a message string throws before the handler's `try`. The model records that as `Unanswered`, because Express never replies.
- KnowledgeProbe.ProbeLog: the probe's fetch is a `Result`. The case of data that is null without an error, which would throw in the loop, is not modelled.
- CartContext: the localStorage load and save (src/context/CartContext.tsx:24-31) are reduced to the constructor's optional saved lines.
- Chatbot.ChatWidget.SendMessage: the send is one atomic step. The intermediate state while the reply is pending is not modelled: the user message is shown and loading is true. Nor is a second send interleaving with it. The stale `messages` closure is modelled: the history is taken from the transcript before the send.
- Chatbot.ChatWidget.SendMessage: the message ids come from the clock (`Date.now()`). They are parameters, so ids are not claimed unique.
- The `dangerouslySetInnerHTML` insertion is left out. Only the string transform of the rendering is modelled.
- AdminDashboard: file names built from `Date.now()` and `Math.random()` are not modelled. The upload function receives the extension and the file, and its URL or error is a parameter.
- AdminDashboard: the `confirm` dialog and the delete RPC behind the delete button are not modelled. Only which users get the button is.
- ProductDetail: the loading spinner, the "Producto no encontrado" view and the thumbnail gallery are presentational and not modelled.
- ProductDetail: the page's `product` record is fetched by id. The model takes it as given.
- HomeCarousel: the five-second interval and its cleanup are timing, and not modelled. A tick is a method call.
- SocialButtons: the open/closed toggle of the menu is presentational and not modelled.
- src/AuthContext.tsx, the authentication page, the profile, store and cart pages, and the presentational components are not part of this model.
