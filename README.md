# WanderGuide core in Dafny

WanderGuide is an iOS app. It asks six quiz questions, turns the answers into a
request for a walking tour of Charleston, and then shows the tour's stops one at
a time. The user moves between stops by swiping or with arrow buttons, and a
"Navigate" button hands the remaining stops to a maps app. This project models
the sequential logic behind that flow and proves properties of it:

- `DataFetchingService` (`data_fetching_service.dfy`): the request and response
  shapes. It also holds `QuizToTourRequestMapper.map` (answers to request), the
  form-encoded request body, and the mapping from a decoded response to stops.
- `ViewModel` (`main_view_model.dfy`): the `Quiz` class, the `AppScreen` variant
  and the `MainViewModel` class. The class holds the current screen, the answers
  written by index, and the questions whose option lists are narrowed in place.
  Each delayed step is a method of its own.
- `PlaceView` (`place_view.dfy`): the `Place` record and the waypoint link with
  its loop. It also holds the arrow-button conditions, the drag threshold, and
  the stop index a swipe requests.
- `Text` (`text.dfy`) and `Optional` (`optional.dfy`): the Swift string
  operations the mapper uses, written on `seq<char>`, and `T?`.

Notes on behaviour, as the code has it:

- `replacingOccurrences` removes every occurrence of " hours", " hour",
  " miles", " mile" and "$", wherever it stands in the answer.
- The option filter removes every option equal to the answer, however many
  there are.
- After the last answer the app shows the loading screen and then the first
  hard-coded place. It never calls `fetchData`, so no fetched tour reaches the
  screen.
- No code assigns the error screen.
- The budget is read from the fifth answer, which is the walking-distance
  question. With the shipped options the budget is therefore always 0
  (`ShippedAnswersGiveZeroBudget`).
- The form body is not percent-encoded, so a text field holding '&' would add
  pieces to the body (`FormBodyPieces` is stated for fields without '&').

## Model

| member | source | states |
|---|---|---|
| `Text.AsciiLower` | WanderGuide/DataFetchingService.swift:93-99 | `lowercased()`: same length, no capital letter left, each capital replaced by its small letter and every other character kept in place |
| `Text.AsciiLowerIdentity` | WanderGuide/DataFetchingService.swift:93-99 | lowercasing is idempotent, and it leaves a text unchanged exactly when the text has no capital letter |
| `Text.AsciiLowerKeeps` | WanderGuide/DataFetchingService.swift:93-99 | a character that is not a letter is in the lowercased text iff it is in the original |
| `Text.RemoveAll` | WanderGuide/DataFetchingService.swift:97-99 | `replacingOccurrences(of:with: "")` never lengthens the text and only keeps characters that were in it |
| `Text.RemoveAllSkipsPrefix` | WanderGuide/DataFetchingService.swift:97-99 | removing every occurrence of a pattern leaves alone a prefix that never holds the pattern's first character |
| `Text.RemoveAllSuffix` | WanderGuide/DataFetchingService.swift:97-98 | removing `pat` from `s + pat` gives `s` when `s` cannot start a match |
| `Text.RemoveAllKeeps` | WanderGuide/DataFetchingService.swift:99 | removing a one-character pattern never removes any other character |
| `Text.ParseInt` | WanderGuide/DataFetchingService.swift:97-99 | `Int(s)`: a parsed value needs a non-empty text that is a digit or sign followed only by digits, and is negative only after a `-` |
| `Text.ParseDigits` | WanderGuide/DataFetchingService.swift:97-99 | `Int(s)` of a non-empty digit string is its decimal value |
| `Text.ParseRejects` | WanderGuide/DataFetchingService.swift:97-99 | `Int(s)` is nil when `s` holds any character that is neither a digit nor a sign |
| `Text.IntToString` | WanderGuide/DataFetchingService.swift:136 | the text of an `Int` in the body is non-empty, starts with `-` exactly for negative values, and is otherwise digits |
| `Text.IntToStringRoundTrip` | WanderGuide/DataFetchingService.swift:136 | the decimal text of an integer parses back to that integer |
| `Text.Join` | WanderGuide/DataFetchingService.swift:137 | `joined(separator:)` starts with the first part, followed by the separator when more parts follow |
| `Text.SplitJoin` | WanderGuide/DataFetchingService.swift:135-137 | splitting a `joined(separator:)` text at a separator that no part holds gives the parts back |
| `DataFetchingService.MapAnswers` | WanderGuide/DataFetchingService.swift:89-110 | needs at least six answers; the location is always "Charleston, SC" and the start time always "morning" |
| `DataFetchingService.InterestsRule` | WanderGuide/DataFetchingService.swift:93-96 | interests are the lowercased first answer; ", " and the lowercased second answer follow exactly when the second answer is not "None" (case-sensitive, compared before lowercasing) |
| `DataFetchingService.UnitStripped` | WanderGuide/DataFetchingService.swift:97-98 | removing "<unit>s" then "<unit>" from "d<unit>s" or "d<unit>" leaves the digits d |
| `DataFetchingService.DurationOfHours` | WanderGuide/DataFetchingService.swift:97 | an answer that lowercases to "d hours" or "d hour" gives duration d |
| `DataFetchingService.DistanceOfMiles` | WanderGuide/DataFetchingService.swift:98 | an answer that lowercases to "d miles" or "d mile" gives distance d |
| `DataFetchingService.ShortUnitFirstLeavesS` | WanderGuide/DataFetchingService.swift:97 | removing " hour" before " hours" would leave "ds", which does not parse; the code's order avoids that |
| `DataFetchingService.MileExamples` | WanderGuide/DataFetchingService.swift:98 | "1 mile" reads as distance 1 and "2 miles" as 2 |
| `DataFetchingService.HourExamples` | WanderGuide/DataFetchingService.swift:97 | "2 hours" reads as duration 2 and "3 hours" as 3 |
| `DataFetchingService.HalfMileIsZero` | WanderGuide/DataFetchingService.swift:98 | "1/2 mile" gives distance 0 |
| `DataFetchingService.BudgetOfDollars` | WanderGuide/DataFetchingService.swift:99 | an amount that lowercases to "$d" gives budget d, whatever the sixth answer |
| `DataFetchingService.DollarExamples` | WanderGuide/DataFetchingService.swift:99 | "$10" is budget 10 and "$25" budget 25, whatever the sixth answer |
| `DataFetchingService.BudgetFallback` | WanderGuide/DataFetchingService.swift:99 | an unreadable amount gives 1000 when the sixth answer is exactly "no limit" and 0 otherwise |
| `DataFetchingService.BudgetWithSpace` | WanderGuide/DataFetchingService.swift:99 | an amount holding a space never parses, so only the fallback decides the budget |
| `DataFetchingService.HistoryExample` | WanderGuide/DataFetchingService.swift:89-110 | "3 hours", "not-a-number" and "$25" give duration 3, distance 0 and budget 25 |
| `DataFetchingService.NoLimitExample` | WanderGuide/DataFetchingService.swift:99 | "$bogus" with "no limit" gives budget 1000 |
| `DataFetchingService.ArtFoodExample` | WanderGuide/DataFetchingService.swift:89-110 | Art, Food, 2 hours, 1 mile, $10, no give the request {Charleston, SC; art, food; 10; 2; 1; morning} |
| `DataFetchingService.Parameters` | WanderGuide/DataFetchingService.swift:126-133 | the dictionary has exactly the six keys; location, interests and start_time are the request's text verbatim, and budget, duration and distance are decimal text that reads back as the request's integers |
| `DataFetchingService.FormBody` | WanderGuide/DataFetchingService.swift:135-138 | for any iteration order of the six keys, the body starts with the first key, "=" and its value verbatim |
| `DataFetchingService.IterationOrderKeys` | WanderGuide/DataFetchingService.swift:126-133 | any iteration order of the parameter dictionary has six entries and visits exactly its keys |
| `DataFetchingService.PiecesHaveNoAmpersand` | WanderGuide/DataFetchingService.swift:126-136 | when the three text fields hold no '&', no "key=value" piece does |
| `DataFetchingService.FormBodyPieces` | WanderGuide/DataFetchingService.swift:126-138 | when location, interests and start_time hold no '&', then for any iteration order of the dictionary the '&'-joined body splits back at '&' into exactly the six "key=value" pieces, one per key, with values verbatim |
| `DataFetchingService.MappedFormBodyPieces` | WanderGuide/DataFetchingService.swift:126-138 | the body of a mapped request has six pieces when the two interest answers hold no '&' |
| `DataFetchingService.ToPlaces` | WanderGuide/DataFetchingService.swift:153-161 | one stop per location, in order; title, category, story and coordinates come from location i, and every stop gets the tour name or "" |
| `DataFetchingService.ToPlacesSplits` | WanderGuide/DataFetchingService.swift:153-161 | mapping a split list of locations gives the split list of stops, so order is preserved |
| `ViewModel.Without` | WanderGuide/MainViewModel.swift:71 | the filter never lengthens the options, leaves no option equal to the answer, and keeps every other option as often as it occurred |
| `ViewModel.WithoutConcat` | WanderGuide/MainViewModel.swift:71 | filtering works element by element, so the kept options keep their order |
| `ViewModel.WithoutIdempotent` | WanderGuide/MainViewModel.swift:71 | filtering twice by the same answer equals filtering once |
| `ViewModel.WithoutAbsent` | WanderGuide/MainViewModel.swift:71 | options without the answer are unchanged |
| `ViewModel.TourCoordinatesOf` | WanderGuide/MainViewModel.swift:43-45 | at most one coordinate per place, each taken from some place; when every place has coordinates there is exactly one per place, in order |
| `ViewModel.TourCoordinatesConcat` | WanderGuide/MainViewModel.swift:43-45 | places without coordinates are skipped and the rest keep their relative order |
| `ViewModel.FetchedTourCoordinates` | WanderGuide/DataFetchingService.swift:153-161 | the stops mapped from a response yield one coordinate per location, in the response's order |
| `ViewModel.ShippedPlacesHaveCoordinates` | WanderGuide/MainViewModel.swift:33-41 | there are seven hard-coded places and all have coordinates |
| `ViewModel.ShippedAnswersGiveZeroBudget` | WanderGuide/MainViewModel.swift:26-28 | with the fifth and sixth answers taken from the shipped options, the mapped budget is always 0 |
| `ViewModel.Quiz.constructor` | WanderGuide/QuizView.swift:10-20 | a question object holds the given question, call to action and options |
| `ViewModel.MainViewModel.constructor` | WanderGuide/MainViewModel.swift:20-49 | the intro screen, the six shipped questions as fresh objects, one empty answer per question, and the seven shipped places |
| `ViewModel.MainViewModel.ShowFirstQuiz` | WanderGuide/MainViewModel.swift:50-52 | the delayed step shows question 0 at index 0 |
| `ViewModel.MainViewModel.AddAnswer` | WanderGuide/MainViewModel.swift:63-65 | needs an index in range; writes that slot (overwriting is allowed) and leaves every other slot unchanged |
| `ViewModel.MainViewModel.NavigateToNextQuiz` | WanderGuide/MainViewModel.swift:67-76 | with a next question, narrows its options in place by the answer and shows it at index+1, changing no other question; otherwise shows the loading screen |
| `ViewModel.MainViewModel.Submit` | WanderGuide/MainViewModel.swift:55-61 | records the answer, then makes the next-question step |
| `ViewModel.MainViewModel.NavigateToTour` | WanderGuide/MainViewModel.swift:78-79 | shows the loading screen; no request is made |
| `ViewModel.MainViewModel.ShowFirstPlace` | WanderGuide/MainViewModel.swift:80-82 | the delayed step shows hard-coded place 0 at index 0 |
| `ViewModel.MainViewModel.NavigateTo` | WanderGuide/MainViewModel.swift:85-90 | shows place i exactly when 0 <= i < places.count and otherwise changes nothing; it never enters a quiz screen |
| `ViewModel.MainViewModel.TourCoordinates` | WanderGuide/MainViewModel.swift:43-45 | one coordinate per place, place i's own |
| `ViewModel.DisplayedPlaceCoordinates` | WanderGuide/PlaceView.swift:36-38 | on a stop screen, `tourCoordinates[index]` is in range and is the coordinate of the place shown |
| `ViewModel.ArrowsMatchNavigation` | WanderGuide/PlaceView.swift:46-67 | on a stop screen, each arrow is shown exactly when the swipe it sends names an existing stop |
| `ViewModel.SubmitInOrder` | WanderGuide/MainViewModel.swift:55-76 | answering questions 0..N-1 in order shows questions 1..N-1 in turn and then the loading screen; the answers are those given, and question k is narrowed by answer k-1 only |
| `PlaceView.MapsUrl` | WanderGuide/PlaceView.swift:143-146 | there is no link exactly when the start index is not a stop index |
| `PlaceView.GetGoogleMapsUrl` | WanderGuide/PlaceView.swift:143-167 | the loop builds the prefix, then each later stop followed by "+to:", then the start stop (the second nil guard is unreachable) |
| `PlaceView.SeparatorCount` | WanderGuide/PlaceView.swift:154-162 | when no stop's text holds '+', the link holds exactly coords.count - start - 1 separators |
| `PlaceView.LastStopUrl` | WanderGuide/PlaceView.swift:154-162 | starting at the last stop, the link is the prefix followed by that stop alone |
| `PlaceView.StartStopLast` | WanderGuide/PlaceView.swift:148-162 | the link begins with the prefix and the stop after the start, and it ends with the start stop |
| `PlaceView.ShowsLeftArrow` | WanderGuide/PlaceView.swift:47 | the left arrow shows iff index > 0, that is, iff index - 1 is a valid index |
| `PlaceView.ShowsRightArrow` | WanderGuide/PlaceView.swift:59 | the right arrow shows iff index < count - 1, that is, iff index + 1 is a stop index |
| `PlaceView.ClassifyDrag` | WanderGuide/PlaceView.swift:132-138 | a width above 100 gives left, below -100 gives right, and anything in [-100, 100] gives nothing |
| `PlaceView.PlaceCoordinates` | WanderGuide/PlaceView.swift:36-38 | the map centre needs an index within the tour's coordinates (the read traps otherwise) and is one of those coordinates |
| `PlaceView.SwipeTarget` | WanderGuide/MainView.swift:32 | left asks for index - 1 and right for index + 1 |

## Left out

- The network part of `fetchData`: the URL, the POST request, its headers, the 150-second timeout, `URLSession` and the completion callback. These are I/O and concurrency. The view model never calls `fetchData` anyway.
- JSON decoding is a foreign library call. A decoded reply is a `TourResponse` value. `ValidationError` and `HTTPValidationError` are declared in the app but never decoded, so they are not modelled.
- `DispatchQueue.main.asyncAfter` delays: each delayed body is a step method (`ShowFirstQuiz`, `ShowFirstPlace`).
- ViewModel.MainViewModel.Submit: runs the delayed next-question step straight after recording the answer, so events that arrive during the 0.5-second delay are not modelled.
- Coordinates are pairs of `real` values and no arithmetic is done on them. Their `"\(lat),\(lon)"` text is a formatter passed in as `fmt`.
- PlaceView.GetGoogleMapsUrl: returns the link text. `URL(string:)` is taken to succeed, and `canOpenURL`/`open` are foreign calls that are not modelled.
- Text.AsciiLower: lowercases ASCII letters only, not Unicode case mapping.
- String comparison: Swift compares `String`s by canonical equivalence of grapheme clusters; the model compares `seq<char>` character by character. This affects the "None" and "no limit" tests, the option filter and `replacingOccurrences`; for the ASCII options the app ships the results are the same.
- PlaceView.ClassifyDrag: takes the drag width as a `real`, while the app's `CGFloat` also has NaN and infinities. A NaN width fails both comparisons in the app and reports nothing; infinities compare like very large values. Neither case is modelled.
- Text.ParseInt: accepts digit strings of any length. Swift's `Int(String)` returns nil when the value overflows a 64-bit integer.
- All `print` calls and all SwiftUI layout, map rendering and previews (`QuizView`, `MainView`, `WanderGuideApp`). The only part of `MainView` that is modelled is the swipe-to-index callback.
- The commented-out `coordinatesFromGeolocation`.
- `submit` places no condition on the current screen, and neither does the model.
