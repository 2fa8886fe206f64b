# Stadium reservation platform: a Dafny model of its core

The platform is a university stadium booking system with two clients:
- a Next.js web app;
- a React Native mobile app.

Both talk to route handlers over a Firestore database. Students and clubs use it to:
- book a stadium for a date and a time slot;
- create, join and leave friendly matches;
- get a reminder before a reservation starts.

The server side modelled here covers:
- the `/api/bookings`, `/api/time-slots` and `/api/friendly-matches` routes;
- the request schemas and sanitisers they use;
- the security helpers;
- the in-memory rate limiter;
- the expired-reservation sweeper.

The client side modelled here covers:
- the web booking calendar and the web friendly-matches page;
- the mobile booking screen and the mobile friendly-matches screen;
- the mobile reminder service;
- the mobile translator.

How things are represented:
- The database is a class `Store.Db` whose collections are sequences of records in document order.
- A route handler is a function from the collections (and the request) to the reply and the new collection. A method on `Db` performs it, and its postcondition ties the new state to that function.
- Screens, the rate limiter, the reminder service and the language provider are classes whose fields are the component state that the source updates.
- Everything the code receives from outside is a parameter:
  - network replies, the clock and random bytes;
  - the cipher and the key derivation function;
  - device storage;
  - the id Firestore assigns to a new document.

Modules, one per source file of the core:
- `Common`: JavaScript string and array behaviour shared by the rest.
- `Store`: the records and the database.
- `Validation`: `lib/validation.ts`.
- `Security`: `lib/security.ts`.
- `RateLimit`: `lib/rateLimiter.ts`.
- `ExpiredReservations`: `lib/expiredReservationsService.ts`.
- `Bookings`, `TimeSlots`, `FriendlyMatches`: the three route files.
- `WebBookingCalendar`, `WebFriendlyMatches`: the two web components.
- `MobileBooking`, `MobileFriendlyMatches`, `Reminders`, `Translation`: the mobile files.

## Model

| member | source | states |
|---|---|---|
| Common.NumOr | app/api/friendly-matches/route.ts:70-71 | `x \|\| d` on a stored number: the value when present and non-zero, the default otherwise |
| Common.TextOr | mobile-app/src/screens/BookingScreen.tsx:143 | `x \|\| d` on a text: the text when present and non-empty, the default otherwise |
| Common.Trim | lib/validation.ts:70 | `trim`: no JavaScript whitespace at either end, no longer than the input, only characters of the input |
| Common.TrimCutsOnlySpace | lib/validation.ts:70 | `trim` returns a slice of the input and cuts only JavaScript whitespace on either side of it, which with the ends above pins the result |
| Common.TrimNoop | lib/validation.ts:70 | trimming text without whitespace at its ends changes nothing |
| Common.RemoveAngles | lib/validation.ts:70 | `.replace(/[<>]/g, '')`: no bracket is left, only input characters remain, and bracket-free text is unchanged |
| Common.RemoveAnglesKeepsOthers | lib/validation.ts:70 | every character other than '<' and '>' is kept as often as it occurs in the input |
| Common.RemoveAnglesConcat | lib/validation.ts:70 | the removal distributes over concatenation, so the kept characters stay in their order |
| Common.Split | mobile-app/src/contexts/LanguageContext.tsx:279 | `split` on one character: one part more than separators, no part contains the separator |
| Common.SplitWithout | mobile-app/src/contexts/LanguageContext.tsx:279 | a text without the separator splits into itself alone |
| Common.SplitCons | mobile-app/src/contexts/LanguageContext.tsx:279 | splitting `a + sep + b` with `a` free of the separator yields `a` and then the parts of `b` |
| Common.JoinSplit | lib/security.ts:48-50 | joining the parts of a split with the separator restores the text |
| Common.LastSegment | mobile-app/src/contexts/LanguageContext.tsx:288 | `split('.').pop()`: holds no separator, and is the whole text when there is none |
| Common.StrLessTransitive | lib/expiredReservationsService.ts:11 | string `<` as the date query uses it is transitive |
| Common.StrLessTotal | lib/expiredReservationsService.ts:11 | any two strings are equal or ordered one way |
| Common.StrLessConcat | lib/expiredReservationsService.ts:11 | over equal-length leading blocks, `<` compares the first blocks, then what follows |
| Common.StrLessDigits | lib/expiredReservationsService.ts:11 | equal-length digit strings compare as the numbers they spell |
| Common.SortDesc | app/api/bookings/route.ts:50 | the date sort: a permutation of its input of the same length |
| Common.SortDescSorted | app/api/bookings/route.ts:50 | the sort's output is newest first by date text |
| Common.SortDescKeepsSorted | app/api/bookings/route.ts:50 | a list already newest first is left unchanged (the sort is stable) |
| Store.OfSport | components/booking-calendar.tsx:138 | `filter(s => s.sport_id === sport)`: exactly the stadiums of that sport, none added |
| Store.Db.constructor | app/api/bookings/route.ts:3 | infrastructure, the `db` the routes import: empty bookings, slots and matches beside the given stadiums and users, with distinct ids |
| Store.AppendBookingKeepsDistinct | app/api/bookings/route.ts:132-136 | `addDoc` with a fresh id keeps booking ids distinct |
| Store.AppendSlotKeepsDistinct | app/api/time-slots/route.ts:59-64 | `addDoc` with a fresh id keeps slot ids distinct |
| Store.AppendMatchKeepsDistinct | app/api/friendly-matches/route.ts:179-190 | `addDoc` with a fresh id keeps match ids distinct |
| Validation.TimeTextMeaning | lib/validation.ts:16 | the time pattern accepts exactly a one- or two-digit hour below 24, a colon and two digits of minutes below 60 |
| Validation.DateTextHasNoRangeCheck | lib/validation.ts:15 | the date pattern checks shape only: "2025-13-45" passes |
| Validation.TimeTextExamples | lib/validation.ts:16 | "7:05" and "23:59" pass; "24:00", "12:60" and "07:5" do not |
| Validation.CheckIssues | lib/validation.ts:27-29 | no issue exactly when every refinement holds; every issue sits at the field's path |
| Validation.ElementIssues | lib/validation.ts:38 | an array of strings has no issue exactly when every element is a string; issues are at `name.index` |
| Validation.FieldIssuesMeaning | lib/validation.ts:11-45 | a field has no issue exactly when it is absent and optional, or present with the right type and passing its refinements |
| Validation.ShapeIssuesEmpty | lib/validation.ts:11-45 | an object has no issue exactly when every field of the schema accepts |
| Validation.ShapeIssuesNameFields | lib/validation.ts:57 | every issue's path starts with a schema field, and every failing field produces an issue |
| Validation.ShapeDataMeaning | lib/validation.ts:44 | parsed data keeps present fields unchanged, fills defaults for absent ones, and drops the rest |
| Validation.ValidateData | lib/validation.ts:48-66 | success exactly when parsing succeeds, with the parsed data; a ZodError gives one `path: message` text per issue, in order, the path joined with '.'; anything else gives ["Invalid data format"] |
| Validation.IssueTextStartsWithField | lib/validation.ts:57 | an error text starts with the first element of the issue's path |
| Validation.ValidateObject | lib/validation.ts:48-66 | validating an object succeeds exactly when every field accepts; each failing field is reported |
| Validation.ValidatedData | lib/validation.ts:50-53 | a validated object hands back exactly the object zod builds from it |
| Validation.RequiredTextAccepts | lib/validation.ts:12-14 | a `min(1)` string field accepts exactly a present non-empty string |
| Validation.PatternFieldsAccept | lib/validation.ts:15-16 | the date and time fields accept exactly strings matching their patterns |
| Validation.MatchFieldsAccept | lib/validation.ts:25-31 | each optional friendly-match field accepts exactly its type and bounds (2..50 players, at least 1 current player, a description of at most 500 UTF-16 units, the skill-level enum) |
| Validation.SlotAndStadiumFieldsAccept | lib/validation.ts:37-44 | duration at least 30, capacity at least 1, isActive boolean if present, facilities an array of strings if present |
| Validation.BookingShapeAccepts | lib/validation.ts:11-17 | `bookingSchema` accepts exactly non-empty user, stadium and slot ids, a date text and a time text |
| Validation.BookingData | lib/validation.ts:11-17 | a validated booking returns its five fields as sent |
| Validation.SanitizedTextAt | lib/validation.ts:78-84 | after `sanitizeObject`, a text field reads as its sanitised text |
| Validation.FriendlyMatchShapeAccepts | lib/validation.ts:19-32 | `friendlyMatchSchema` accepts exactly its required texts, patterns, the player bound and well-typed optional fields |
| Validation.MatchData | lib/validation.ts:19-32 | a validated match request returns host, maxPlayers and each optional field exactly as sent, present or absent |
| Validation.TimeSlotShapeAccepts | lib/validation.ts:41-45 | `timeSlotSchema` accepts exactly a time text, a duration of at least 30 and a boolean or absent isActive |
| Validation.TimeSlotData | lib/validation.ts:41-45 | a validated slot keeps time and duration, with isActive as sent or true |
| Validation.StadiumShapeAccepts | lib/validation.ts:34-39 | `stadiumSchema` accepts exactly non-empty name and location, a capacity of at least 1 and string facilities |
| Validation.SanitizeString | lib/validation.ts:69-71 | no angle bracket in the result, no longer than the input, only input characters |
| Validation.SanitizeKeepsPlainText | lib/validation.ts:69-71 | text without brackets or edge whitespace is returned unchanged |
| Validation.SanitizeKeepsPatternText | lib/validation.ts:69-71 | every accepted date or time text is returned unchanged |
| Validation.SanitizeNotIdempotent | lib/validation.ts:69-71 | "< a" sanitises to " a" and then to "a": trimming runs before brackets are removed |
| Validation.SanitizeEmail | lib/validation.ts:73-75 | no upper-case ASCII in the result, no longer than the input |
| Validation.SanitizeEmailIdempotent | lib/validation.ts:73-75 | sanitising an address twice equals sanitising it once |
| Validation.SanitizeValue | lib/validation.ts:80-82 | strings are sanitised; every other value is kept |
| Validation.SanitizeObject | lib/validation.ts:77-85 | the loop returns the same keys, sanitised strings and all other values unchanged |
| Common.Utf16Length | lib/security.ts:123 | `length` (also the length zod's `min`/`max` check) counts UTF-16 units: between the code-point count and twice that, and equal to it for BMP text |
| Security.Hex | lib/security.ts:99 | `toString('hex')`: two lower-case hex digits per byte |
| Security.HexHasNoColon | lib/security.ts:38 | hex text contains no ':' |
| Security.HexInjective | lib/security.ts:99 | distinct byte strings render as distinct hex |
| Security.GenerateSecureToken | lib/security.ts:98-100 | `length` random bytes yield 2·length hex characters |
| Security.EncryptData | lib/security.ts:26-43 | throws exactly when the cipher fails; otherwise the payload has exactly two ':' |
| Security.PayloadSplits | lib/security.ts:38 | the `iv:tag:encrypted` format splits back into its three parts |
| Security.DecryptData | lib/security.ts:46-69 | a payload without exactly three parts throws the decryption error; a returned text came from a three-part payload |
| Security.DecryptEncrypt | lib/security.ts:26-69 | decrypting an encrypted payload returns the original data whenever the decipher inverts the cipher |
| Security.HashPassword | lib/security.ts:72-76 | the stored value is `hex(salt) + ":" + ...` with exactly one ':' |
| Security.VerifyPassword | lib/security.ts:79-95 | a stored value without exactly two parts never verifies |
| Security.VerifyHashed | lib/security.ts:72-95 | a stored hash accepts exactly the candidates whose derived key equals the password's |
| Security.PrefixIgnoringCaseMeaning | lib/security.ts:106 | the `/i` match of a lower-case pattern is character-wise equality after lower-casing |
| Security.RemoveScheme | lib/security.ts:106 | `.replace(/javascript:/gi, '')` never lengthens the text and keeps it bracket-free |
| Security.RemoveHandlers | lib/security.ts:107 | `.replace(/on\w+=/gi, '')` never lengthens the text and keeps it bracket-free |
| Security.SchemeFreeWhenUnchanged | lib/security.ts:106 | text the scheme removal leaves unchanged holds no `javascript:` in any case |
| Security.HandlerFreeWhenUnchanged | lib/security.ts:107 | text the handler removal leaves unchanged holds no `on…=` in any case |
| Security.SanitizeInput | lib/security.ts:103-109 | no angle bracket and no edge whitespace in the result; the input is unchanged or shortened |
| Security.UnchangedInputIsClean | lib/security.ts:103-109 | an input the sanitiser leaves unchanged holds no bracket, no scheme and no handler |
| Security.RemoveSchemeJoins | lib/security.ts:106 | removing the scheme from its two halves wrapped around it leaves the scheme |
| Security.SanitizeInputLeavesScheme | lib/security.ts:103-109 | for every split of "javascript:" into two non-empty halves, the sanitiser outputs the scheme itself |
| Security.RemoveHandlersJoins | lib/security.ts:107 | "oonx=nx=" loses one handler and leaves the handler "onx=" |
| Security.SanitizeInputLeavesHandler | lib/security.ts:103-109 | the sanitiser outputs an event handler for "oonx=nx=" for every word character x |
| Security.SanitizeInputStable | lib/security.ts:103-109 | sanitising until nothing changes: a fixed point of one pass, no longer than the input |
| Security.SanitizeInputStableClean | lib/security.ts:103-109 | the repeated sanitiser's output has no bracket, scheme, handler or edge whitespace |
| Security.EmailMeaning | lib/security.ts:112-115 | `^[^\s@]+@[^\s@]+\.[^\s@]+$` holds exactly when there is one '@', non-blank parts around it, and a dot with plain text on both sides after it |
| Security.EmailNeedsAt | lib/security.ts:112-115 | an address without '@' is invalid |
| Security.FailedRules | lib/security.ts:122-142 | exactly the rules that fail among the later ones, each once, no more than there are rules |
| Security.FailedRulesIncreasing | lib/security.ts:122-142 | failing rules are listed in the order the checks run |
| Security.MessagesOf | lib/security.ts:124-142 | one message per rule, each ranking at its rule, and a rule's message present exactly when the rule is listed |
| Security.ErrorsInOrder | lib/security.ts:122-142 | the reported messages are strictly ordered by rule |
| Security.ValidatePasswordStrength | lib/security.ts:118-148 | valid exactly when there are no errors; at most five messages, in rule order |
| Security.TooShortMeaning | lib/security.ts:124-126 | the length message is reported exactly when the password has fewer than 8 UTF-16 units |
| Security.NoUpperMeaning | lib/security.ts:128-130 | the uppercase message is reported exactly when no ASCII capital occurs |
| Security.NoLowerMeaning | lib/security.ts:132-134 | the lowercase message is reported exactly when no ASCII lower-case letter occurs |
| Security.NoDigitMeaning | lib/security.ts:136-138 | the number message is reported exactly when no digit occurs |
| Security.NoSpecialMeaning | lib/security.ts:140-142 | the special-character message is reported exactly when none of the listed punctuation occurs |
| Security.GenerateApiKey | lib/security.ts:151-155 | the key starts with `sk_stadiumbook_` and is 63 characters long |
| Security.GeneratedKeyRejected | lib/security.ts:151-160 | no generated key passes `isValidApiKey` as written |
| Security.GeneratedKeyWellFormed | lib/security.ts:151-160 | every generated key passes the corrected check: the prefix followed by 48 hex digits |
| RateLimit.Step | lib/rateLimiter.ts:29-48 | a new or expired entry restarts at 1 with a fresh window; a live entry at the limit refuses and changes nothing; otherwise the count increases; other entries are untouched |
| RateLimit.Remaining | lib/rateLimiter.ts:50-56 | the full limit with no live entry; for a live entry `max(0, max - count)` (the larger of 0 and `max - count`) |
| RateLimit.ResetTime | lib/rateLimiter.ts:58-64 | present exactly for a live entry, and then the entry's reset time (never before now) |
| RateLimit.Unexpired | lib/rateLimiter.ts:20-27 | cleanup keeps exactly the live entries, unchanged |
| RateLimit.StepKeepsCounts | lib/rateLimiter.ts:29-48 | every stored count stays within 1..max |
| RateLimit.RefusalMeansNoneRemaining | lib/rateLimiter.ts:42-44 | after a refusal, remaining is 0 and the reset time is the entry's |
| RateLimit.CleanupUnobservable | lib/rateLimiter.ts:20-64 | cleanup changes no later answer of checkLimit, getRemainingRequests or getResetTime |
| RateLimit.RunWithinWindow | lib/rateLimiter.ts:29-48 | within one window, accepted calls add to the count and never pass the limit |
| RateLimit.AtMostMaxPerWindow | lib/rateLimiter.ts:29-48 | from a fresh start, at most max calls are accepted within one window |
| RateLimit.RateLimiter.CheckLimit | lib/rateLimiter.ts:29-48 | the new map and the answer are those of `Step`; the timer is untouched |
| RateLimit.RateLimiter.GetRemainingRequests | lib/rateLimiter.ts:50-56 | returns `Remaining` of the current map |
| RateLimit.RateLimiter.GetResetTime | lib/rateLimiter.ts:58-64 | returns `ResetTime` of the current map |
| RateLimit.RateLimiter.Cleanup | lib/rateLimiter.ts:20-27 | the loop leaves exactly `Unexpired` of the old map |
| RateLimit.RateLimiter.Destroy | lib/rateLimiter.ts:66-69 | the map is empty and the timer stopped |
| RateLimit.RateLimiter.constructor | lib/rateLimiter.ts:13-18 | an empty map with the cleanup timer scheduled |
| RateLimit.Limit | lib/rateLimiter.ts:76-97 | every type has a 15-minute window and a positive limit; auth allows 5 |
| ExpiredReservations.Expired | lib/expiredReservationsService.ts:11 | the `date < today` query: exactly the bookings dated before today |
| ExpiredReservations.Current | lib/expiredReservationsService.ts:17-21 | what the sweep leaves: exactly the bookings dated today or later |
| ExpiredReservations.ExpiredAndCurrentSplit | lib/expiredReservationsService.ts:11-21 | expired and current bookings partition the collection (counts and multisets) |
| ExpiredReservations.CurrentKeepsDistinct | lib/expiredReservationsService.ts:17-21 | the sweep keeps document ids distinct |
| Store.Segments | app/api/bookings/route.ts:57-59 | the pieces of an id between '/', none empty and none holding '/' |
| Store.DocKey | app/api/bookings/route.ts:57-59 | the document an accepted reference names in the collection itself: an id without '/' names itself |
| Store.JoinedSegments | app/api/bookings/route.ts:57-59 | plain ids joined by '/' are exactly the path's segments, with no "//" |
| Store.EdgeSlashesDropped | app/api/bookings/route.ts:57-59 | "s1/" and "/s1" name document "s1" |
| Store.RefusedRefs | app/api/friendly-matches/route.ts:201 | "", "a/b" and any id holding "//" are refused |
| Store.SubCollectionRef | app/api/friendly-matches/route.ts:270 | "a/b/c" is accepted and names no document of the collection itself |
| Store.GetStadium | app/api/bookings/route.ts:57 | `getDoc`: the stored stadium the reference names, or none when it names none |
| Store.GetSlot | app/api/bookings/route.ts:58 | `getDoc`: the stored time slot the reference names, or none |
| Store.GetUser | app/api/bookings/route.ts:59 | `getDoc`: the stored user the reference names, or none |
| Store.MatchIndex | app/api/friendly-matches/route.ts:201-206 | `getDoc`: the position of the match the reference names, or none when it names no stored match |
| Store.DeleteId | lib/expiredReservationsService.ts:18 | `deleteDoc` removes exactly the document with that id |
| Store.Db.DeleteBooking | lib/expiredReservationsService.ts:18 | `deleteDoc` on the bookings collection: the collection loses that id, nothing else changes |
| ExpiredReservations.WithoutNothing | lib/expiredReservationsService.ts:17-21 | deleting no id changes nothing |
| ExpiredReservations.DeleteOneMore | lib/expiredReservationsService.ts:17-21 | deleting one more id extends the set of deleted ids |
| ExpiredReservations.WithoutExpiredIds | lib/expiredReservationsService.ts:17-21 | deleting exactly the expired ids leaves the current bookings |
| ExpiredReservations.ExpiredIdsAreExpired | lib/expiredReservationsService.ts:11-18 | with distinct ids, an id belongs to an expired booking exactly when its booking is expired |
| ExpiredReservations.RemoveExpiredReservations | lib/expiredReservationsService.ts:5-29 | a failed query changes nothing and answers 0; otherwise every delete that does not reject completes; with no rejection the collection becomes the current bookings and the answer is the number removed; any rejection answers 0 |
| ExpiredReservations.DeletedIds | lib/expiredReservationsService.ts:17-21 | exactly the ids of the found documents whose delete does not reject |
| ExpiredReservations.DeleteEach | lib/expiredReservationsService.ts:17-21 | `Promise.all` over the deletes: the collection loses exactly `DeletedIds`, and the result says whether any delete rejected |
| ExpiredReservations.AllDeleted | lib/expiredReservationsService.ts:17-21 | with no rejection, the deleted ids are those of every found document |
| ExpiredReservations.WithoutIdsKeepsDistinct | lib/expiredReservationsService.ts:17-21 | any set of completed deletes keeps the remaining ids distinct |
| ExpiredReservations.DeletedIdShrinks | lib/expiredReservationsService.ts:17-27 | a completed delete shrinks the collection, even when a rejection beside it makes the sweep answer 0 |
| ExpiredReservations.SweepIdempotent | lib/expiredReservationsService.ts:5-29 | a second sweep on the same day finds and changes nothing |
| ExpiredReservations.DigitBlock | lib/expiredReservationsService.ts:11 | equal-length digit blocks compare by the numbers they spell |
| ExpiredReservations.SameSeparator | lib/expiredReservationsService.ts:11 | comparing past an equal separator compares what follows |
| ExpiredReservations.DateTextOrder | lib/expiredReservationsService.ts:11 | for yyyy-mm-dd texts, string `<` is calendar order |
| ExpiredReservations.SweepRemovesPastDays | lib/expiredReservationsService.ts:7-21 | for well-formed dates, a booking survives exactly when its day is not before today |
| Bookings.Select | app/api/bookings/route.ts:21-46 | the query returns exactly the bookings meeting every given condition |
| Bookings.SelectEverything | app/api/bookings/route.ts:36-40 | with no condition, the whole collection in order |
| Bookings.Enrich | app/api/bookings/route.ts:55-79 | the booking is kept; the stadium, slot and user parts are each present exactly when the document their reference names exists, and then hold that document's fields |
| Bookings.EnrichNulls | app/api/bookings/route.ts:62-64 | a part is null exactly when no document of its collection is named |
| Bookings.SlashedStadiumRef | app/api/bookings/route.ts:57 | a booking stored with stadium id "s1/" is listed, with stadium "s1" when it exists |
| Bookings.BookingsOf | app/api/bookings/route.ts:66-67 | the bookings under the rows, position by position |
| Bookings.Ordered | app/api/bookings/route.ts:48-51 | a permutation of the selection; newest first with a user, store order without one |
| Bookings.EnrichAll | app/api/bookings/route.ts:54-80 | one enriched row per booking, in order |
| Bookings.GetBookings | app/api/bookings/route.ts:8-87 | 400 exactly for a blank userId; otherwise 500 exactly when a selected booking holds a reference `doc` refuses; otherwise the selected bookings, enriched, sorted as `Ordered` |
| Bookings.EnrichmentKeepsEveryBooking | app/api/bookings/route.ts:54-80 | every selected booking appears with a null part exactly for each missing document |
| Bookings.PostBookingResult | app/api/bookings/route.ts:89-143 | a non-JSON body gives 500; an invalid one gives 400 with zod's errors; a valid one is accepted exactly when its (stadium, date, slot) is free, is refused with 400 "This time slot is already booked for this stadium" when it is taken, and is stored as the sanitised request under the new id |
| Bookings.PostKeepsNoDoubleBooking | app/api/bookings/route.ts:104-132 | successive POSTs never put two bookings on one stadium, date and slot |
| Bookings.PostStoresRequest | app/api/bookings/route.ts:94-138 | a valid, clean request for a free slot is stored with exactly its ids and date |
| Bookings.SanitizedRequest | app/api/bookings/route.ts:102 | sanitising clean validated data changes no stored field |
| Bookings.PostAccepts | app/api/bookings/route.ts:94-138 | a valid request whose slot is free is accepted with the booking built from it |
| Bookings.HandlePost | app/api/bookings/route.ts:89-143 | the handler's steps (parse, validate, sanitise, slot check) give exactly the reply `PostBookingResult` specifies, including its 500 and both 400 replies |
| Bookings.PostBooking | app/api/bookings/route.ts:89-143 | the database reply is `PostBookingResult`; only a success appends; no double booking is introduced; other collections are unchanged |
| Store.Db.AddBooking | app/api/bookings/route.ts:132 | `addDoc` appends the booking, keeps booking ids distinct and leaves the other collections as they were |
| TimeSlots.GetTimeSlots | app/api/time-slots/route.ts:8-22 | every stored slot with its id, in store order |
| TimeSlots.PostSlotResult | app/api/time-slots/route.ts:24-69 | non-JSON gives 500; invalid gives 400 with errors; a valid slot is accepted exactly when its time is free, is refused with 400 "Time slot already exists" when it is taken, and is stored as the sanitised request under the new id |
| TimeSlots.PostKeepsUniqueTimes | app/api/time-slots/route.ts:39-59 | successive creates keep slot times unique |
| TimeSlots.PostStoresSlot | app/api/time-slots/route.ts:37-64 | a valid request is stored with its time, its duration and isActive as sent or true |
| TimeSlots.SlotFieldsKept | app/api/time-slots/route.ts:37-57 | the stored slot carries the request's time, duration and isActive |
| TimeSlots.SlotDataSanitized | app/api/time-slots/route.ts:37 | sanitising keeps a clean time, the duration, and the defaulted isActive |
| TimeSlots.SlotAccepted | app/api/time-slots/route.ts:24-64 | a valid request with a free time is accepted as the slot built from it |
| TimeSlots.PostSlot | app/api/time-slots/route.ts:24-69 | the database reply is `PostSlotResult`; only a success appends; times stay unique |
| TimeSlots.HandleSlotPost | app/api/time-slots/route.ts:24-69 | the handler's steps (parse, validate, sanitise, time check) give exactly the reply `PostSlotResult` specifies |
| Store.Db.AddSlot | app/api/time-slots/route.ts:59 | `addDoc` appends the slot, keeps slot ids distinct and leaves the other collections as they were |
| FriendlyMatches.SelectHosted | app/api/friendly-matches/route.ts:14-28 | with a userId, exactly the matches it hosts; without one, all of them |
| FriendlyMatches.SelectHostedEverything | app/api/friendly-matches/route.ts:20-22 | without a user every match is listed, in order |
| FriendlyMatches.PersonOf | app/api/friendly-matches/route.ts:59-68 | the id, the email, and the full name or else the username |
| FriendlyMatches.StadiumShown | app/api/friendly-matches/route.ts:43-58 | the `stadium` object: present exactly when the reference names a stored stadium, and then that stadium's name and capacity under the stored id |
| FriendlyMatches.PersonShown | app/api/friendly-matches/route.ts:44-68 | the `host` or `guest` object: present exactly when the reference names a stored user, and then `PersonOf` that user |
| FriendlyMatches.EnrichMatch | app/api/friendly-matches/route.ts:41-75 | stadium, host and guest as `StadiumShown` and `PersonShown` (no guest without a guestId); `x \|\| default` for a missing or falsy value: maxPlayers 10 for a missing or 0 one, currentPlayers the roster size or 1 for a missing or 0 one, skillLevel "any" for a missing or empty one; a truthy stored value is shown as stored; isPublic true when missing |
| FriendlyMatches.MatchesOf | app/api/friendly-matches/route.ts:52-53 | the matches under the rows, position by position |
| FriendlyMatches.EnrichMatches | app/api/friendly-matches/route.ts:40-76 | one enriched row per match, in order |
| FriendlyMatches.NewestFirst | app/api/friendly-matches/route.ts:36-37 | a permutation of the matches, newest first by date |
| FriendlyMatches.GetMatches | app/api/friendly-matches/route.ts:8-83 | an empty selection gives []; 500 exactly for a bad reference; otherwise the selected matches, newest first, enriched |
| FriendlyMatches.CheckCandidate | app/api/friendly-matches/route.ts:113-157 | in order: 500 for a stadium id `doc` refuses, 404 exactly when the id names no stored stadium, then a 400 with its own message for over-capacity, for a booked slot, and for an active match, each when the earlier checks pass; success exactly when all pass |
| FriendlyMatches.PostMatchResult | app/api/friendly-matches/route.ts:85-195 | non-JSON gives 500, invalid gives 400; a valid body's reply is `CheckCandidate` of the sanitised candidate; a created match is pending, its roster is its host, and it passed every check |
| FriendlyMatches.ActiveExclusiveAppend | app/api/friendly-matches/route.ts:143-157 | adding a match to a free slot keeps active matches exclusive |
| FriendlyMatches.PostKeepsActiveExclusive | app/api/friendly-matches/route.ts:143-179 | successive creates never leave two active matches on one stadium, date and time |
| FriendlyMatches.CreatedDefaults | app/api/friendly-matches/route.ts:159-177 | team2 "Open", currentPlayers 1, description "", skillLevel "any" and isPublic true when omitted; otherwise the sent values |
| FriendlyMatches.CreatedFromRequest | app/api/friendly-matches/route.ts:90-179 | the created match is the candidate built from the sanitised, validated data |
| FriendlyMatches.SanitizedDefaults | app/api/friendly-matches/route.ts:111-177 | from parsed data that kept the request's fields, the stored match has the sent maxPlayers and the defaults for omitted optional fields |
| FriendlyMatches.CreatedCountCanDiverge | app/api/friendly-matches/route.ts:169-174 | a request with currentPlayers other than 1 stores a count that differs from the roster size |
| FriendlyMatches.CreatedMatchComplete | app/api/friendly-matches/route.ts:168-172 | a created match sets every field the listing would default |
| FriendlyMatches.CompleteShownAsStored | app/api/friendly-matches/route.ts:70-73 | a complete match is listed with its stored values |
| FriendlyMatches.SlotIdRuleMissesBooking | app/api/friendly-matches/route.ts:128-141 | as written: a booking on slot "slot7" at 18:00 does not block a match at 18:00 |
| FriendlyMatches.SlotTimeRuleRespectsBookings | app/api/friendly-matches/route.ts:128-141 | corrected: a created match never starts at the time of the slot of any booking of the same stadium and date |
| FriendlyMatches.NotBookedAt | app/api/friendly-matches/route.ts:128-141 | when the check finds no booking at the match's stadium, date and time, no single booking there means that time under the rule |
| FriendlyMatches.PostMatch | app/api/friendly-matches/route.ts:85-195 | the database reply is `PostMatchResult`; only a success appends; active exclusivity is preserved |
| FriendlyMatches.CreateMatch | app/api/friendly-matches/route.ts:113-190 | checks and inserts a validated candidate as `CheckCandidate` decides |
| Store.Db.AddMatch | app/api/friendly-matches/route.ts:179 | `addDoc` appends the match, keeps match ids distinct and leaves the other collections as they were |
| FriendlyMatches.Apply | app/api/friendly-matches/route.ts:252 | `updateDoc` overwrites the given fields; id, stadium, date, time and maxPlayers are kept |
| FriendlyMatches.Without | app/api/friendly-matches/route.ts:236 | `filter(id => id !== g)`: exactly the other players |
| FriendlyMatches.Put | app/api/friendly-matches/route.ts:197-259 | 500 for a missing matchId or one `doc` refuses; 404 exactly when the accepted id names no stored match; for a found match the reply is Ok exactly when `PlanUpdate` is, the match becomes `Apply` of that plan, and a rejected plan's status and message are the reply; a failure changes nothing; other matches and all ids are kept |
| FriendlyMatches.PutJoin | app/api/friendly-matches/route.ts:214-229 | a join through PUT is accepted exactly when the match has room and the named guest is new, and the stored roster then ends with the guest |
| FriendlyMatches.JoinOutcome | app/api/friendly-matches/route.ts:214-232 | a join succeeds exactly when the match is not full, the guest is named and not already in it; "full" wins over "already in"; the roster gains the guest and the count goes up by one |
| FriendlyMatches.PlanIgnoresStatus | app/api/friendly-matches/route.ts:214-250 | whether a PUT succeeds never depends on the stored status |
| FriendlyMatches.LeaveByNonMember | app/api/friendly-matches/route.ts:233-243 | a leave by a non-player changes nothing but the status sent |
| FriendlyMatches.LeaveByMember | app/api/friendly-matches/route.ts:233-243 | a leave removes the player, decrements the count (floor 1) and hands the host role to the first remaining player |
| FriendlyMatches.StatusOverwritten | app/api/friendly-matches/route.ts:248-250 | any non-empty status sent is stored |
| FriendlyMatches.WithoutPresent | app/api/friendly-matches/route.ts:236 | removing a present player from a duplicate-free roster shortens it by one |
| FriendlyMatches.WithoutAbsent | app/api/friendly-matches/route.ts:236 | removing an absent player changes nothing |
| FriendlyMatches.WithoutKeepsNoDuplicates | app/api/friendly-matches/route.ts:236 | filtering keeps a roster duplicate-free |
| FriendlyMatches.JoinKeepsRoster | app/api/friendly-matches/route.ts:214-232 | a join keeps a consistent roster consistent |
| FriendlyMatches.LeaveKeepsRoster | app/api/friendly-matches/route.ts:233-243 | a leave keeps a roster of two or more consistent |
| FriendlyMatches.LastLeaveDiverges | app/api/friendly-matches/route.ts:235-242 | the last player leaving empties the roster but keeps the count at 1 and the host |
| FriendlyMatches.ReactivationBreaksExclusivity | app/api/friendly-matches/route.ts:248-250 | a PUT can set a cancelled match back to pending beside an active one on the same slot |
| FriendlyMatches.PutMatch | app/api/friendly-matches/route.ts:197-259 | the database reply and collection are those of `Put`; other collections are unchanged |
| Store.Db.UpdateMatch | app/api/friendly-matches/route.ts:252 | `updateDoc` replaces the one document in place under its own id; match ids stay distinct and the other collections are unchanged |
| FriendlyMatches.WithoutMatch | app/api/friendly-matches/route.ts:270 | exactly the matches the reference does not name |
| FriendlyMatches.WithoutMatchKeepsDistinct | app/api/friendly-matches/route.ts:270 | deleting keeps ids distinct |
| FriendlyMatches.Delete | app/api/friendly-matches/route.ts:261-277 | 400 "Match ID is required" exactly without a matchId; success exactly for an id `doc` accepts, and it removes exactly the document that id names; a missing one is no error |
| FriendlyMatches.DeleteByPath | app/api/friendly-matches/route.ts:270 | "m1/" deletes what "m1" deletes; "m1/x/y" succeeds and deletes nothing |
| FriendlyMatches.DeleteIdempotent | app/api/friendly-matches/route.ts:261-277 | deleting twice equals deleting once |
| FriendlyMatches.WithoutMatchTwice | app/api/friendly-matches/route.ts:270 | removing an id twice equals removing it once |
| FriendlyMatches.DeleteMatch | app/api/friendly-matches/route.ts:261-277 | the database reply and collection are those of `Delete` |
| WebBookingCalendar.Morning | components/booking-calendar.tsx:103-112 | exactly the slots whose period is "morning" |
| WebBookingCalendar.Afternoon | components/booking-calendar.tsx:103-112 | exactly the slots of every other period or none |
| WebBookingCalendar.MorningKeepsOrder | components/booking-calendar.tsx:106-112 | the morning list distributes over concatenation (input order kept) |
| WebBookingCalendar.AfternoonKeepsOrder | components/booking-calendar.tsx:106-112 | the afternoon list distributes over concatenation |
| WebBookingCalendar.SplitStep | components/booking-calendar.tsx:107-111 | one more slot lands at the end of its period's list |
| WebBookingCalendar.SplitIsPermutation | components/booking-calendar.tsx:103-114 | the two lists together hold every fetched slot exactly as often |
| WebBookingCalendar.Offered | components/booking-calendar.tsx:318-320 | exactly the slots whose `enabled` is true |
| WebBookingCalendar.PostedSlotNeverOffered | app/api/time-slots/route.ts:51-57 | a slot created through the API (no `enabled` field) is never offered by the calendar |
| WebBookingCalendar.NoTimeInvalid | lib/validation.ts:11-17 | the booking schema refuses every body without `time` |
| WebBookingCalendar.BodyAsWrittenAlwaysRefused | components/booking-calendar.tsx:180-185 | the calendar's body is always refused with 400 "Validation failed" |
| WebBookingCalendar.BodyAccepted | components/booking-calendar.tsx:180-185 | with the time added, the body is accepted exactly when the ids are non-empty and the date and time match |
| WebBookingCalendar.BookingCalendar.constructor | components/booking-calendar.tsx:41-55 | nothing selected, empty lists, not loading |
| WebBookingCalendar.BookingCalendar.Split | components/booking-calendar.tsx:103-114 | the loop leaves the lists `Morning(data)` and `Afternoon(data)`; selections unchanged |
| WebBookingCalendar.BookingCalendar.FetchTimeSlots | components/booking-calendar.tsx:91-126 | runs only with sport and date; an ok reply splits the slots; failure (the toast) exactly when the fetch fails |
| WebBookingCalendar.BookingCalendar.FetchStadiums | components/booking-calendar.tsx:128-152 | runs only with sport and date; an ok reply keeps the sport's stadiums; failure exactly when the fetch fails |
| WebBookingCalendar.BookingCalendar.PressSlot | components/booking-calendar.tsx:325-328 | selects the slot's time and id together |
| WebBookingCalendar.BookingCalendar.HandleBooking | components/booking-calendar.tsx:159-221 | nothing is sent without user, sport, date, slot and stadium; otherwise the body with the time; success clears time, slot and stadium and keeps sport and date; failure shows the error text; isLoading is false after a POST |
| WebFriendlyMatches.StatusBadge | components/friendly-matches.tsx:207-230 | a badge exactly for "open", "closed" and "confirmed" |
| WebFriendlyMatches.CreateMatch | components/friendly-matches.tsx:112-157 | an empty field leaves the page unchanged; otherwise an open match by club "1", under the club's name and with no guest name, goes in front, the form is reset and the dialog closes |
| WebFriendlyMatches.JoinMatch | components/friendly-matches.tsx:159-175 | the matching id becomes confirmed with guest "1" and the club's guest name, every other field kept; every other match is kept in place |
| WebFriendlyMatches.CreatedNotJoinable | components/friendly-matches.tsx:128-136 | the club cannot join a match it just created |
| WebFriendlyMatches.JoinClosesOffer | components/friendly-matches.tsx:363 | after a join, nothing with that id is joinable and every other match is as joinable as before |
| WebFriendlyMatches.JoinIdempotent | components/friendly-matches.tsx:164-175 | joining twice equals joining once |
| WebFriendlyMatches.StatusesHaveBadges | components/friendly-matches.tsx:36-46 | creating and joining never produce a status without a badge |
| MobileBooking.BookedSlots | mobile-app/src/screens/BookingScreen.tsx:87 | exactly the slot ids of the listed bookings |
| MobileBooking.BookedSlotsOfSelection | mobile-app/src/screens/BookingScreen.tsx:88 | the booked set of the bookings selected by stadium and date holds exactly the slots those bookings take |
| MobileBooking.BookedSetAgreesWithServer | mobile-app/src/screens/BookingScreen.tsx:80-93 | from the server's answer, a slot is marked booked exactly when the server's POST would see it taken |
| MobileBooking.FilteredStadiums | mobile-app/src/screens/BookingScreen.tsx:184-186 | none without a sport; otherwise exactly that sport's stadiums |
| MobileBooking.SlotWithTime | mobile-app/src/screens/BookingScreen.tsx:119 | the first slot with that time, as `find` returns it, or none when no slot has it |
| MobileBooking.BodyAccepted | mobile-app/src/screens/BookingScreen.tsx:132-138 | the server accepts the body exactly when a slot was found, the ids are non-empty and the date and time match |
| MobileBooking.BookingScreen.constructor | mobile-app/src/screens/BookingScreen.tsx:33-40 | nothing selected, empty lists and set, not loading |
| MobileBooking.BookingScreen.FetchBookedTimeSlots | mobile-app/src/screens/BookingScreen.tsx:80-93 | with date and stadium, an ok reply sets the booked ids; otherwise the set is kept |
| MobileBooking.BookingScreen.PressSlot | mobile-app/src/screens/BookingScreen.tsx:297-308 | a booked slot's button does nothing; any other selects its time |
| MobileBooking.BookingScreen.HandleBooking | mobile-app/src/screens/BookingScreen.tsx:113-177 | incomplete exactly when a selection or the user is missing; refused exactly when the found slot is booked; otherwise the body and alert; a created booking clears the selections and the booked set |
| MobileBooking.BookingScreen.Send | mobile-app/src/screens/BookingScreen.tsx:125-176 | the alert for the reply; a created booking clears the selections and the booked set |
| MobileBooking.SentSlotIsFree | mobile-app/src/screens/BookingScreen.tsx:119-123 | a slot absent from the fetched booked set is not taken on the server |
| MobileFriendlyMatches.CheckStadiumAvailability | mobile-app/src/screens/FriendlyMatchesScreen.tsx:154-186 | unavailable exactly when a listed booking has that time or a listed active match holds the slot; an exception makes the slot available and a not-ok reply skips its half |
| MobileFriendlyMatches.AvailabilityAgreesWithServer | mobile-app/src/screens/FriendlyMatchesScreen.tsx:154-186 | fed the servers' answers, the pre-check refuses exactly when the server's booking check (as written) or active-match check would |
| MobileFriendlyMatches.BookingHalf | mobile-app/src/screens/FriendlyMatchesScreen.tsx:157-163 | the bookings check matches the server's slot-id rule |
| MobileFriendlyMatches.MatchHalf | mobile-app/src/screens/FriendlyMatchesScreen.tsx:167-178 | the matches check matches the server's active-match rule |
| MobileFriendlyMatches.MatchPayload | mobile-app/src/screens/FriendlyMatchesScreen.tsx:221-233 | the body carries the form's fields, the user as host, "football", and team2 "Open" when empty |
| MobileFriendlyMatches.PayloadAccepted | mobile-app/src/screens/FriendlyMatchesScreen.tsx:221-241 | the server accepts the body exactly when the date and time match, max players is 2..50, the description fits 500 characters and the skill level is known |
| MobileFriendlyMatches.SubmitOutcome | mobile-app/src/screens/FriendlyMatchesScreen.tsx:196-268 | ignored without a user; posted exactly when the form is complete, within capacity and available; the missing-field, capacity ("Maximum players (…) cannot exceed stadium capacity (…)") and unavailable-stadium alerts in that order |
| MobileFriendlyMatches.SubmitChecks | mobile-app/src/screens/FriendlyMatchesScreen.tsx:197-217 | the checks before the POST let it go ahead exactly when there is a user, the required fields are filled, the chosen stadium's capacity is respected and the stadium is available; otherwise they give the refusal `SubmitOutcome` gives |
| MobileFriendlyMatches.LeadingDigits | mobile-app/src/screens/FriendlyMatchesScreen.tsx:440 | the longest all-digit prefix |
| MobileFriendlyMatches.MaxPlayersInput | mobile-app/src/screens/FriendlyMatchesScreen.tsx:440 | `parseInt(text) \|\| 10` is never 0 |
| MobileFriendlyMatches.LeadingDigitsOf | mobile-app/src/screens/FriendlyMatchesScreen.tsx:440 | digits followed by a non-digit give those digits |
| MobileFriendlyMatches.MaxPlayersOfDigits | mobile-app/src/screens/FriendlyMatchesScreen.tsx:440 | typed digits read as their value, or 10 when that is 0 |
| MobileFriendlyMatches.ParseDigits | mobile-app/src/screens/FriendlyMatchesScreen.tsx:440 | `parseInt` of digits followed by a non-digit is their value |
| MobileFriendlyMatches.MaxPlayersWithoutDigits | mobile-app/src/screens/FriendlyMatchesScreen.tsx:440 | text that starts with neither a digit, space nor sign reads as 10 |
| MobileFriendlyMatches.FriendlyMatchesScreen.constructor | mobile-app/src/screens/FriendlyMatchesScreen.tsx:62-79 | the blank form, the dialog closed, not creating |
| MobileFriendlyMatches.FriendlyMatchesScreen.SetMaxPlayersText | mobile-app/src/screens/FriendlyMatchesScreen.tsx:440 | only maxPlayers changes, to `MaxPlayersInput(text)` |
| MobileFriendlyMatches.FriendlyMatchesScreen.HandleCreateMatchSubmit | mobile-app/src/screens/FriendlyMatchesScreen.tsx:196-268 | the outcome is `SubmitOutcome`; a created match resets the form and closes the dialog; otherwise the form is kept |
| MobileFriendlyMatches.FriendlyMatchesScreen.Create | mobile-app/src/screens/FriendlyMatchesScreen.tsx:219-267 | posts the payload and shows its alert; success resets; creating ends false |
| MobileFriendlyMatches.JoinRequest | mobile-app/src/screens/FriendlyMatchesScreen.tsx:134-138 | the PUT names the match, the user as guest and "join", with no status |
| MobileFriendlyMatches.JoinButtonMeansRoom | mobile-app/src/screens/FriendlyMatchesScreen.tsx:338 | while the stored maximum is not 0, the button never shows on a match the server would refuse as full |
| MobileFriendlyMatches.JoinKeepsStatus | mobile-app/src/screens/FriendlyMatchesScreen.tsx:122-152 | joining from the button keeps the match's status |
| Reminders.Reservation.constructor | mobile-app/src/services/reminderService.ts:60-77 | a reservation not yet reminded |
| Reminders.Upcoming | mobile-app/src/services/reminderService.ts:80-88 | exactly the reservations starting within the next hour that have not been reminded |
| Reminders.MinutesUntil | mobile-app/src/services/reminderService.ts:98 | the floor minutes lie in 0..60 |
| Reminders.MinutesRoundDown | mobile-app/src/services/reminderService.ts:98 | the minutes are the whole minutes left, rounded down |
| Reminders.TierOf | mobile-app/src/services/reminderService.ts:100-107 | up to 15, 16..30 and over 30 minutes pick the three messages |
| Reminders.ReminderTiers | mobile-app/src/services/reminderService.ts:97-107 | under 16 whole minutes "starts in", under 31 "get ready", otherwise "reminder" |
| Reminders.NotificationFor | mobile-app/src/services/reminderService.ts:109-119 | the notification names the reservation and stadium with 0..60 minutes |
| Reminders.SendReminderIfNeeded | mobile-app/src/services/reminderService.ts:91-124 | within the window it sends and marks the reservation; outside it does nothing |
| Reminders.NotificationsFor | mobile-app/src/services/reminderService.ts:49-51 | one notification per reservation, in order |
| Reminders.CheckUpcomingReservations | mobile-app/src/services/reminderService.ts:30-55 | sends one notification per upcoming reservation in order; marks exactly those in the window; nothing is left upcoming |
| Reminders.NothingLeft | mobile-app/src/services/reminderService.ts:80-88 | with every reservation in the window reminded, nothing is upcoming |
| Reminders.RemindedAtMostOnce | mobile-app/src/services/reminderService.ts:85-87 | a reminded reservation is never picked again |
| Reminders.ReminderService.constructor | mobile-app/src/services/reminderService.ts:5-6 | not running and no timer |
| Reminders.ReminderService.Start | mobile-app/src/services/reminderService.ts:8-20 | a second start does nothing; a first start sets the flag and timer and runs one check |
| Reminders.ReminderService.Stop | mobile-app/src/services/reminderService.ts:22-28 | clears the timer and the flag |
| Reminders.Schedule | mobile-app/src/services/reminderService.ts:127-178 | an hour-before notice exactly when that is still ahead; a second one exactly when 15 minutes before is also ahead, 45 minutes later |
| Reminders.LateScheduleSendsNothing | mobile-app/src/services/reminderService.ts:139-159 | past the one-hour mark nothing is scheduled, not even the 15-minute notice |
| Translation.Step | mobile-app/src/contexts/LanguageContext.tsx:283 | `value?.[k]`: text only from a dictionary entry |
| Translation.Walk | mobile-app/src/contexts/LanguageContext.tsx:282-284 | walking one or more parts never ends at a dictionary |
| Translation.WalkMissing | mobile-app/src/contexts/LanguageContext.tsx:283 | once nothing is found, nothing is found |
| Translation.SpaceBeforeCapitals | mobile-app/src/contexts/LanguageContext.tsx:288 | `.replace(/([A-Z])/g, ' $1')` never shortens, and is empty only for empty input |
| Translation.SpaceBeforeCapitalsConcat | mobile-app/src/contexts/LanguageContext.tsx:288 | spacing distributes over concatenation |
| Translation.NoCapitalsUnchanged | mobile-app/src/contexts/LanguageContext.tsx:288 | text without capitals is left unchanged |
| Translation.CapitalsFollowSpaces | mobile-app/src/contexts/LanguageContext.tsx:288 | every capital follows a space, and dropping those spaces restores the input |
| Translation.CapitalizeFirst | mobile-app/src/contexts/LanguageContext.tsx:288 | only the first character changes, upper-cased when it is a lower-case letter |
| Translation.Fallback | mobile-app/src/contexts/LanguageContext.tsx:286-289 | the spaced, capitalised last part of the key, or the key when that is empty |
| Translation.PlainKeyResolves | mobile-app/src/contexts/LanguageContext.tsx:278-291 | an undotted key with a usable entry resolves to that entry |
| Translation.AlwaysFallsBack | mobile-app/src/contexts/LanguageContext.tsx:278-289 | with every dictionary key dotted, `t` always shows the fallback |
| Translation.LastSegmentAfterDot | mobile-app/src/contexts/LanguageContext.tsx:288 | the last part after a dot is the last part of what follows it |
| Translation.NoAccountExample | mobile-app/src/contexts/LanguageContext.tsx:22 | `t("login.noAccount")` shows "No Account", never the dictionary text |
| Translation.TranslateFlat | mobile-app/src/contexts/LanguageContext.tsx:278-292 | corrected: a usable entry for the whole key is returned; otherwise the fallback |
| Translation.FlatAgreesOnPlainKeys | mobile-app/src/contexts/LanguageContext.tsx:278-292 | for an undotted key, the corrected look-up agrees with `t` |
| Translation.LanguageProvider.constructor | mobile-app/src/contexts/LanguageContext.tsx:252 | starts in English |
| Translation.LanguageProvider.LoadLanguage | mobile-app/src/contexts/LanguageContext.tsx:258-267 | a saved "en" or "ar" replaces the language; anything else, or a storage error, keeps it |
| Translation.LanguageProvider.SetLanguage | mobile-app/src/contexts/LanguageContext.tsx:269-276 | the language changes only when storage took it |
| Translation.LanguageProvider.T | mobile-app/src/contexts/LanguageContext.tsx:278-292 | the loop's answer is `Translate` of the current dictionary |

## Left out

- Firestore, Next.js, React and React Native are not modelled. The collections are sequences in document order, and a network reply is a parameter. Concurrent requests are not modelled: each route runs alone. Firestore's document-id order for the unsorted listings is the sequence order.
- The `createRateLimit` middleware (lib/rateLimiter.ts:100-140) and `withAuth`/`withAdminAuth` are not modelled: the route files import them, but the handlers modelled here do not call them.
- `userSchema` (lib/validation.ts:4-9) is not used by any modelled route, and is not modelled.
- Common.SortDesc: compares the date texts with string `<` instead of the `new Date(…)` timestamps the comparators subtract. The two orders agree on well-formed yyyy-mm-dd dates (`ExpiredReservations.DateTextOrder`), and malformed dates, which JavaScript sorts as NaN, are not modelled.
- The clock is a parameter. Date parsing (`new Date("…")`, `toISOString`) is not modelled: a reservation's start is an integer millisecond, and "today" is a yyyy-mm-dd text.
- `setInterval`, `setTimeout` and the mock delays are not modelled. The reminder service records only whether its timer is set. The hourly sweep schedule (lib/expiredReservationsService.ts:31-39) is left out.
- Cryptography is a parameter: the AES-GCM cipher and decipher, PBKDF2 and random bytes. Their own properties are assumptions stated in `Security.DecryptEncrypt`'s requires.
- Push notifications, toasts and alerts are not sent: the model returns the notification or the alert text instead.
- AsyncStorage is a parameter (`Translation.Stored`).
- Reminders.Upcoming: takes the reservations as a parameter. The source rebuilds two mock reservations on each check, and re-reads the clock inside `sendReminderIfNeeded`. The model uses one `now` per check.
- MobileBooking.BookingScreen.Send: a booking notification or reminder failure after an ok reply is not modelled. It would go to the catch, and no reset would happen.
- The mobile booking screen's `getAvailableDates` and the web calendar's available-dates list, which depend only on the clock, are left out.
- `t` does not model JavaScript property access on prototype keys (a key part such as "constructor"), nor property access on a string found midway: `"abc"["0"]` is "a" and `"abc"["length"]` is 3, whereas `Step` gives nothing, so `Translate` differs from the app for a key such as "a.0" when "a" holds a text. The app's dictionaries hold only dotted keys, so its own walks never reach a text midway. `toUpperCase` is modelled for ASCII letters only.
- `Common.StrLess` compares UTF-16 code units as Dafny characters: the two orders agree on the Basic Multilingual Plane only.
- The Firestore SDK is not part of this model. Its client-side path rules for `doc(db, collection, id)` are restated in `Store.DocRefOk` and `Store.DocKey`: the id is split at '/', empty pieces are dropped, "//" is refused, and the whole path must have an even length. The ids the Firestore server itself rejects (".", "..", ids of the form `__x__`, ids over 1500 bytes) are not modelled: the model looks them up like any other id, where the routes would answer 500.
- Slots created through POST /api/time-slots store no `enabled` and no `period`. The web calendar therefore never offers them (`WebBookingCalendar.PostedSlotNeverOffered`). This is kept as the source has it.
- Stadium `enabled` badges and the admin screens are not part of this model.
- Validation.SanitizeEmail: lower-cases ASCII letters only. `toLowerCase` also maps other letters by Unicode case mapping ('É' to 'é', and 'İ' to two code units), which the model does not capture.
- Validation.HasKind: a JSON number is an integer (`Json.JNum`). zod's `z.number()` also accepts fractions such as `maxPlayers: 10.5` or `duration: 45.5`, and the routes store them; requests with fractional numbers are not modelled.
- Validation.FriendlyMatchShapeAccepts: states the schema over integer numbers only, for the same reason as `Validation.HasKind`.
- Validation.MatchFieldsAccept: states the `maxPlayers` and `currentPlayers` bounds over integers only, for the same reason as `Validation.HasKind`.
- Validation.TimeSlotShapeAccepts: states the `duration` bound over integers only, for the same reason as `Validation.HasKind`.
- Validation.StadiumShapeAccepts: states the `capacity` bound over integers only, for the same reason as `Validation.HasKind`.
- MobileFriendlyMatches.ParseInt: reads decimal digits only. `parseInt` without a radix also reads a "0x" prefix as hexadecimal ("0x1A" is 26), so `MaxPlayersInput("0x1A")` is 10 in the model and 26 in the source.
- Store.User: a users document without a text field is stored as "", while the GET reply of app/api/bookings/route.ts:69-76 would leave that field out (`undefined`). The enriched row therefore shows "" where the source omits the field.

## Findings

| source | as written | input that shows it | evidently intended | confidence | as-written member | corrected member |
|---|---|---|---|---|---|---|
| lib/security.ts:151-160 | `isValidApiKey` requires length 56, but `generateApiKey` yields 15 + 48 = 63 characters | any 24 random bytes | a generated key passes the check | not executed | Security.GeneratedKeyRejected | Security.GeneratedKeyWellFormed |
| app/api/friendly-matches/route.ts:128-141 | the booking check compares a booking's `time_slot_id` (a document id) with the match's HH:MM `time` | booking on slot "slot7" (time 18:00) at stadium s1 on 2025-06-01; match at 18:00 there | a match is refused over a booked slot starting at the same time | not executed | FriendlyMatches.SlotIdRuleMissesBooking | FriendlyMatches.SlotTimeRuleRespectsBookings |
| components/booking-calendar.tsx:180-185 | the POST body omits `time`, which `bookingSchema` (lib/validation.ts:16) requires | any complete selection | the body carries the chosen slot's time | not executed | WebBookingCalendar.BodyAsWrittenAlwaysRefused | WebBookingCalendar.BodyAccepted |
| lib/security.ts:103-109 | one pass of each `replace` can assemble a new `javascript:` or `on…=` from the pieces around a removed one | "javajavascript:script:" and "oonx=nx=" | the output holds no scheme and no handler | not executed | Security.SanitizeInputLeavesScheme | Security.SanitizeInputStableClean |
| mobile-app/src/contexts/LanguageContext.tsx:15-22 | `t` walks the key part by part, but the dictionaries are flat maps from dotted keys | `t("login.noAccount")` | the entry "Don't have an account?" is shown | not executed | Translation.NoAccountExample | Translation.TranslateFlat |
