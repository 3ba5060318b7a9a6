# BookHaven book-review app: a Dafny model

BookHaven is a single-page React app for browsing, adding and reviewing books, with an
Express/MongoDB back end. This project models the parts of it that decide what happens:

- the client store (`AppContext`) with its state slots and operations;
- the home page's filter, sort and pagination, and the page-string router;
- the book details page: its review list, rating distribution, star strips, fetch fallback and
  review-submit guards. A fetched book is kept as the server sent it, with `_id` and no `id`, so
  `book.id` is undefined for it. The model follows that into the review post, which the server
  refuses, into the delete, which removes nothing, and into the edit link;
- the profile page's derived lists and counters;
- the book form, signup and login validators and submit handlers;
- the navigation bar and the book card's star rule;
- the server's book and review controllers, over an in-memory document store.

Each part is proved against what the code promises. State that the app changes in place
(the context's slots, a form's fields and errors, the server's collections) is a Dafny `class`.
Its methods say, in their `ensures`, what the whole new state is. Pure computations (filters,
the router, the star rules, the derived views) are functions, and lemmas relate them to
independent definitions: membership, multisets, page partitions, round trips.

Outside inputs are parameters:

- server answers (`AuthOutcome`, `PostOutcome`, a fetched book or none);
- the user's answer to `window.confirm`;
- ids from `Date.now()`, timestamps, `getFullYear()` and the `Math.random()` draw;
- whether a 'token' is in browser storage, and whether the context supplies `setUser`.

The app's own context value does not include `setUser`, so the pages' `if (setUser)` branches
are modelled with a flag.

Modules, one per source file plus shared helpers:

- `Wrappers` (`Option`);
- `Text`: whitespace and `trim`, ASCII lower-casing, substring search, `replace`, a code-point
  order standing in for `localeCompare`, and the `\S+@\S+\.\S+` email pattern;
- `Seqs` (filter, sums, distinct elements), `Paging` (windows and page counts), `Ratings` (exact
  means and rounding to tenths);
- `AppContext`, `Router`, `HomePage`, `BookCard`, `BookDetails`, `ProfilePage`, `BookForm`,
  `Session`, `SignupPage`, `LoginPage`, `Navigation`;
- `Database`, `BookController`, `ReviewController`. Ids the server casts to ObjectIds (a book's
  `_id`, a review's `book`, a body's `createdBy`) must be 24 hexadecimal digits; any other value
  makes mongoose throw, and the handler answers 500. A query compares ObjectIds, not strings, so
  'A'..'F' and 'a'..'f' spell the same digit (`SameObjectId`). The store holds every id the way
  MongoDB writes it back, with lower-case digits (`IsStoredId`), and a `book` or `createdBy` from a
  request is stored in that form (`CastId`). With stored forms distinct, any spelling of a stored
  book's id finds that book and no other.

Averages are exact rationals (`real`). A rounded average is a whole number of tenths, with
`Math.round` as round-half-up and `toFixed(1)` as round-half-away-from-zero.

## Model

| member | source | states |
|---|---|---|
| AppContext.AppState.constructor | src/context/AppContext.tsx:155-161 | the store starts with no user, the seeded lists, page 'home', empty search, genre 'All', sort 'title' |
| AppContext.AppState.SetCurrentPage | src/context/AppContext.tsx:309 | the page slot becomes the given string and nothing else changes |
| AppContext.AppState.SetSearchQuery | src/context/AppContext.tsx:310 | the search slot becomes the given query and nothing else changes |
| AppContext.AppState.SetSelectedGenre | src/context/AppContext.tsx:311 | the genre slot becomes the given genre and nothing else changes |
| AppContext.AppState.SetSortBy | src/context/AppContext.tsx:312 | the sort slot becomes the given key and nothing else changes |
| AppContext.AppState.Login | src/context/AppContext.tsx:180-202 | succeeds exactly when email and password are both non-empty; then the user is '1', named by the text before the first '@', and the page is 'home'; otherwise user and page stay |
| AppContext.AppState.Logout | src/context/AppContext.tsx:204-210 | user cleared, page 'home', search '', genre 'All'; sort key and lists are outside its frame, so they stay |
| AppContext.AppState.Signup | src/context/AppContext.tsx:212-234 | succeeds exactly when name, email and password are all non-empty; then the user has the given id and the page is 'home'; otherwise nothing changes |
| AppContext.AppState.AddBook | src/context/AppContext.tsx:236-252 | without a user books and page stay; with one exactly one book is prepended, owned by the user with rating 0 and count 0, and the page is 'home'; the aggregate invariant is kept |
| AppContext.AppState.UpdateBook | src/context/AppContext.tsx:254-258 | the list becomes `UpdateBooks` of the old one: same length and order, the patch merged only into books with that id |
| AppContext.UpdateBooks | src/context/AppContext.tsx:254-258 | same length; every book with that id gets `{ ...book, ...patch }` (the patch's fields win, its id included when it carries one), every other book is identical; a patch without an id keeps every id |
| AppContext.AppState.DeleteBook | src/context/AppContext.tsx:260-265 | when confirmed, exactly the books with that id and the reviews for that book are removed; when declined nothing changes; the aggregate invariant is kept |
| AppContext.AppState.AddReview | src/context/AppContext.tsx:267-292 | without a user nothing changes; otherwise one review signed with the user's id, name and avatar is prepended, and the target book gets the count and rounded mean of the stored reviews plus the new one; the aggregate invariant is kept |
| AppContext.ReviewedBooks | src/context/AppContext.tsx:284-291 | the book list after a review: same length, every other book identical, and the reviewed book changed only in its count (earlier reviews plus one) and its average (their rounded mean) |
| AppContext.Merge | src/context/AppContext.tsx:256 | `{ ...book, ...patch }`: each field the patch holds wins, every other field is the book's |
| AppContext.NewBook | src/context/AppContext.tsx:242-248 | the draft's fields with the new id, the user as creator, rating 0 and count 0 |
| AppContext.NewReview | src/context/AppContext.tsx:273-280 | the draft's book, rating and text, signed with the user's id, name and avatar, the new id and the date |
| AppContext.NameFromEmail | src/context/AppContext.tsx:188 | the user name is the part of the email before the first '@' |
| AppContext.RoundedAverage | src/context/AppContext.tsx:285-289 | the mean rating of a book's reviews rounded to tenths with `Math.round` |
| AppContext.FindBook | src/components/books/BookDetailsPage.tsx:493 | `books.find(b => b.id === id)`, also used at src/components/books/BookForm.tsx:33 and src/components/profile/ProfilePage.tsx:49: `None` exactly when no book has the id; otherwise the first book with that id |
| AppContext.AddReviewCounts | src/context/AppContext.tsx:282-291 | the book's reviews after the prepend are the new one and the old ones, one more than before (not the old `reviewCount` + 1), with the same sum as the list the source averages |
| AppContext.ReviewsForOther | src/context/AppContext.tsx:282-291 | a review for another book does not change a book's review list |
| AppContext.AddReviewKeepsAggregates | src/context/AppContext.tsx:282-291 | if every book's count and rounded average match its reviews before, they all match after `addReview` |
| AppContext.AddReviewTargetAggregate | src/context/AppContext.tsx:284-291 | the target book's count is the number of stored reviews for it plus one, and its average is their mean rounded to tenths |
| AppContext.DeleteKeepsOtherReviews | src/context/AppContext.tsx:263 | removing one book's reviews leaves every other book's review list as it was |
| AppContext.DeleteKeepsAggregates | src/context/AppContext.tsx:260-265 | deleting a book and its reviews keeps every remaining book's aggregates correct |
| AppContext.AddBookKeepsAggregates | src/context/AppContext.tsx:242-250 | a new book with count 0 and no reviews keeps the aggregate invariant |
| Router.DetailsPath | src/components/books/HomePage.tsx:75-77 | the string built as `book-details-${id}` renders the details page of that id |
| Router.RenderPage | src/App.tsx:17-45 | the switch over the page string: the five exact names, the two prefixes with the id after them, and home for anything else |
| Router.ShowsChrome | src/App.tsx:49 | navigation and footer show unless the page string is 'login' or 'signup' |
| Router.EditPath | src/components/books/BookDetailsPage.tsx:697 | the string built as `edit-book-${id}` renders the edit form of that id |
| Router.PrefixRoundTrip | src/App.tsx:31-37 | `replace` of the prefix on prefix + id gives back the id |
| Router.RenderPageString | src/App.tsx:17-45 | every page, written as its string, renders as itself |
| Router.StringRenderPage | src/App.tsx:17-45 | the exact names and the two prefixes render the page they name, and anything else falls back to home |
| Router.ShowsChromeIffNotAuthPage | src/App.tsx:49-62 | navigation and footer show exactly when the page renders neither the login nor the signup page |
| HomePage.GenresShape | src/components/books/HomePage.tsx:34 | the options are 'All', then each book genre once, in order of first appearance |
| HomePage.Genres | src/components/books/HomePage.tsx:34 | 'All' followed by the books' distinct genres |
| HomePage.Filtered | src/components/books/HomePage.tsx:36-50 | the query filter applied when the query is non-empty, then the genre filter when a genre other than 'All' is chosen |
| HomePage.InOrder | src/components/books/HomePage.tsx:53-66 | the comparator read as an order: `localeCompare` on title or author, year or rating descending, and every pair in order for any other key |
| HomePage.Sort | src/components/books/HomePage.tsx:53-66 | a stable sort by that order |
| HomePage.FilteredAndSorted | src/components/books/HomePage.tsx:36-69 | the listing holds exactly the wanted books, as a multiset equal to the filtered list, sorted by the key |
| HomePage.TotalPages | src/components/books/HomePage.tsx:71 | `Math.ceil(listing.length / 6)` |
| HomePage.PaginatedBooks | src/components/books/HomePage.tsx:72-73 | the slice of 6 books starting at (page - 1) * 6 |
| HomePage.FilteredIsWanted | src/components/books/HomePage.tsx:36-50 | the two successive filters keep exactly the books matching the query and the genre, in order |
| HomePage.MatchesQueryMeans | src/components/books/HomePage.tsx:41-44 | a book matches a query exactly when its lower-cased title or author contains the lower-cased query |
| HomePage.MatchesQuery | src/components/books/HomePage.tsx:41-44 | the search test: the lower-cased title or author contains the lower-cased query |
| HomePage.InOrderTotal | src/components/books/HomePage.tsx:53-66 | for every key, each pair of books is in order one way or the other |
| HomePage.InOrderTransitive | src/components/books/HomePage.tsx:53-66 | the comparator's order is transitive for every key |
| HomePage.InsertPermutes | src/components/books/HomePage.tsx:53 | inserting one book adds exactly that book to the multiset |
| HomePage.InsertSorted | src/components/books/HomePage.tsx:53-66 | inserting into a sorted list keeps it sorted |
| HomePage.SortCorrect | src/components/books/HomePage.tsx:53-66 | the sort is ordered by the key (ascending by title or author, non-increasing by year or rating) and is a permutation |
| HomePage.SortUnknownKeyKeepsOrder | src/components/books/HomePage.tsx:63-64 | with any other key the input order is kept |
| HomePage.ListingCorrect | src/components/books/HomePage.tsx:36-69 | the listing is a permutation of the matching sublist, holds exactly the matching books, and is sorted by the key |
| HomePage.PaginationCorrect | src/components/books/HomePage.tsx:71-73 | a page is the slice of at most 6 books starting at (page-1)*6; pages up to `ceil(n/6)` are non-empty and later ones empty; the pages partition the listing |
| HomePage.BookPager.constructor | src/components/books/HomePage.tsx:26 | the current page starts at 1 |
| HomePage.BookPager.Previous | src/components/books/HomePage.tsx:297-300 | goes back one page only from above 1, so a page within bounds stays within them |
| HomePage.BookPager.Next | src/components/books/HomePage.tsx:323-326 | goes forward one page only below the last, so a page within [1, totalPages] stays within it |
| HomePage.BookPager.GoToPage | src/components/books/HomePage.tsx:309-312 | a numbered link sets the current page to that number |
| HomePage.ComputeListing | src/components/books/HomePage.tsx:32-69 | returns the filtered and sorted listing; with no filter active the context's own list is sorted in place, otherwise it stays; either way its multiset is unchanged |
| BookCard.Stars | src/components/books/BookCard.tsx:16 | exactly five stars |
| BookCard.StarAt | src/components/books/BookCard.tsx:19-25 | star i is full below floor(rating), half below the rating, and empty otherwise |
| BookCard.StarKinds | src/components/books/BookCard.tsx:19-25 | star i is full exactly when i < floor(rating), half exactly when floor(rating) ≤ i < rating, and empty otherwise |
| BookCard.AtMostOneHalf | src/components/books/BookCard.tsx:22-23 | two half stars are the same star, at floor(rating), and a whole-number rating has none |
| BookCard.StarsOrdered | src/components/books/BookCard.tsx:19-25 | full stars come before the half star, which comes before the empty ones |
| BookCard.FullStarCount | src/components/books/BookCard.tsx:20-21 | the first n stars are all full exactly when n ≤ floor(rating) |
| BookCard.ViewDetailsTarget | src/components/books/BookCard.tsx:97 | "View Details" passes the book's id, which the home page turns into that book's details page |
| BookDetails.BookReviews | src/components/books/BookDetailsPage.tsx:505 | exactly the reviews whose `bookId` is this book's id |
| BookDetails.BookReviewsInOrder | src/components/books/BookDetailsPage.tsx:505 | the filter keeps the store's order |
| BookDetails.BookReviewsCounts | src/components/books/BookDetailsPage.tsx:505 | the filter keeps each review of this book as many times as the store has it, and no other review |
| BookDetails.PageBookId | src/components/books/BookDetailsPage.tsx:487-495 | `book.id` is present exactly for a book taken from the store, and absent for the server's answer |
| BookDetails.IsOwner | src/components/books/BookDetailsPage.tsx:530 | the owner's controls show exactly when there is a user whose id is the book's `createdBy` |
| BookDetails.DetailsView.Shows | src/components/books/BookDetailsPage.tsx:507-528 | the loading text while loading, "Book not found" without a book, and the book otherwise |
| BookDetails.Bump | src/components/books/BookDetailsPage.tsx:616 | `distribution[rating]++`: a counted key goes up by one, and a missing or `NaN` key becomes `NaN` |
| BookDetails.DistributionOf | src/components/books/BookDetailsPage.tsx:612-618 | the five zero counters bumped once per review, in order |
| BookDetails.RatingDistribution | src/components/books/BookDetailsPage.tsx:612-618 | the loop's result is the distribution of the reviews counted in order |
| BookDetails.DistributionCounts | src/components/books/BookDetailsPage.tsx:612-618 | when all ratings are in 1..5, each of the five counters holds the number of reviews with that rating |
| BookDetails.DistributionTotal | src/components/books/BookDetailsPage.tsx:612-618 | when all ratings are in 1..5, the five counts sum to the number of reviews |
| BookDetails.FilledStars | src/components/books/BookDetailsPage.tsx:598-610 | five stars, star i filled exactly when i < rating |
| BookDetails.FilledStarsPrefix | src/components/books/BookDetailsPage.tsx:603 | the filled stars form a prefix |
| BookDetails.FilledCountPrefix | src/components/books/BookDetailsPage.tsx:603 | the number of filled stars counts that prefix |
| BookDetails.FilledStarsWhole | src/components/books/BookDetailsPage.tsx:603 | a whole rating n in 0..5 fills exactly n stars |
| BookDetails.DetailsView.constructor | src/components/books/BookDetailsPage.tsx:473-476 | no book, loading, rating 5, empty text, not submitting |
| BookDetails.DetailsView.LoadBook | src/components/books/BookDetailsPage.tsx:482-503 | a fetched answer is stored as the server sent it, so the page's `book.id` is undefined; after a failed fetch the store's first book with the id is stored and `book.id` is the page's id; "Book not found" shows exactly when the fetch failed and the store has no such book |
| BookDetails.DetailsView.ClickStar | src/components/books/BookDetailsPage.tsx:607 | clicking star i sets the rating to i+1, within 1..5, which fills exactly i+1 stars |
| BookDetails.DetailsView.SetText | src/components/books/BookDetailsPage.tsx:474 | the review text becomes the typed text |
| BookDetails.DetailsView.SubmitReview | src/components/books/BookDetailsPage.tsx:540-596 | unauthenticated (no user, no token): the page becomes 'login' and nothing is posted or changed; authenticated: every promise of `SubmitText`, with the same store, form and page outcomes |
| BookDetails.DetailsView.SubmitText | src/components/books/BookDetailsPage.tsx:549-595 | blank or whitespace-only text posts and changes nothing; otherwise the request carries the page's `book.id`, the rating and the trimmed text, and a request without a book fails the server's presence check; a created post with a user prepends the review and gives its book the count and rounded mean of its earlier reviews plus the new one, and resets the form; a failed post keeps store and form, and a 401 goes to 'login'; the submitting flag ends false |
| BookDetails.DetailsView.FinishPost | src/components/books/BookDetailsPage.tsx:567-595 | a created post with a user prepends the review built from the request and gives its book the count and rounded mean of its earlier reviews plus the new one; a created post resets to rating 5 and empty text; a failed one keeps store and form, a 401 sends the page to 'login' and any other failure keeps the page; the submitting flag is false after every outcome |
| BookDetails.DetailsView.HandleDeleteBook | src/components/books/BookDetailsPage.tsx:532-538 | declined: nothing changes; accepted: the page goes home, and the books and reviews under `book.id` go when the store's own confirmation also accepts; for a fetched book, whose `book.id` is undefined, nothing is removed |
| BookDetails.DetailsView.EditTarget | src/components/books/BookDetailsPage.tsx:697 | the edit button opens the form for `book.id`: this book's form when it came from the store, and the form for the id "undefined" when it was fetched |
| ProfilePage.UserBooks | src/components/profile/ProfilePage.tsx:27 | exactly the books created by the user |
| ProfilePage.UserReviews | src/components/profile/ProfilePage.tsx:28 | exactly the reviews written by the user |
| ProfilePage.UserListsInOrder | src/components/profile/ProfilePage.tsx:27-28 | both lists keep the store's order |
| ProfilePage.AverageRatingGiven | src/components/profile/ProfilePage.tsx:95-98 | the "Avg Rating Given" value: 0 without reviews, otherwise the exact mean of the ratings |
| ProfilePage.AverageRatingGivenTenths | src/components/profile/ProfilePage.tsx:95-98 | the same value as `toFixed(1)` shows it, in tenths, '0.0' without reviews |
| ProfilePage.AverageRatingGivenBounds | src/components/profile/ProfilePage.tsx:95-98 | with reviews, the average is sum/count, lies in 1..5 for ratings in 1..5, and so does its `toFixed(1)` value |
| ProfilePage.BookTitleById | src/components/profile/ProfilePage.tsx:48-51 | the first book with that id gives its title; no such book gives 'Unknown Book' |
| ProfilePage.ProfileView | src/components/profile/ProfilePage.tsx:16-98 | no user shows only the login prompt; otherwise the two lists, counters equal to their lengths, and the average given (0 without reviews) |
| ProfilePage.HandleDeleteBook | src/components/profile/ProfilePage.tsx:30-35 | the book and its reviews go only when both confirmations accept; otherwise nothing changes |
| BookForm.YearInput | src/components/books/BookForm.tsx:270 | `parseInt(v) \|\| ''`: a non-number or 0 gives the blank value, anything else that number |
| BookForm.YearAsNumber | src/components/books/BookForm.tsx:99 | a blank year compares as 0, a number as itself |
| BookForm.YearInputAccepted | src/components/books/BookForm.tsx:99-101 | a typed year passes the year check exactly when it parses to a number between 1000 and currentYear + 10 |
| BookForm.Message | src/components/books/BookForm.tsx:84-104 | each field's error message |
| BookForm.RandomCoverUrl | src/components/books/BookForm.tsx:113-124 | a draw in [0, 1) always picks one of the seven listed URLs |
| BookForm.ExistingBook | src/components/books/BookForm.tsx:33 | a non-empty id finds a book of the store with that id whenever one exists, and the one found is the first with that id, as `books.find` returns; an empty or missing id finds nothing |
| BookForm.YearAccepted | src/components/books/BookForm.tsx:99-101 | the year passes exactly when its number (a blank year reads as 0) is from 1000 to currentYear + 10, the negation of the error test |
| BookForm.BookFormState.constructor | src/components/books/BookForm.tsx:22-31 | empty fields, the current year, no preview, no errors |
| BookForm.BookFormState.ClearError | src/components/books/BookForm.tsx:70-72 | only a recorded, non-empty message is blanked |
| BookForm.BookFormState.HandleInputChange | src/components/books/BookForm.tsx:68-73 | changes only the named field and blanks only that field's error |
| BookForm.BookFormState.HandleYearChange | src/components/books/BookForm.tsx:270 | the year takes the parsed value and only its error is blanked |
| BookForm.BookFormState.HandleImageUrlChange | src/components/books/BookForm.tsx:75-78 | cover image and preview both become the URL |
| BookForm.BookFormState.GenerateRandomCoverImage | src/components/books/BookForm.tsx:113-126 | cover and preview become the same URL, one of the seven |
| BookForm.BookFormState.Prefill | src/components/books/BookForm.tsx:37-49 | in edit mode with a book, the six fields and the preview are copied from it; otherwise nothing changes |
| BookForm.BookFormState.ValidateForm | src/components/books/BookForm.tsx:80-109 | title, author, description and cover are rejected exactly when blank after trimming; genre exactly when ''; year exactly when its number (a blank year reads as 0) is below 1000 or above currentYear + 10; each error has its message; valid exactly when no error is recorded |
| BookForm.BlankFields | src/components/books/BookForm.tsx:83-105 | each of title, author, description and cover fails exactly when it is blank after trimming; genre and year are not among these checks |
| BookForm.ErrorsFor | src/components/books/BookForm.tsx:81-107 | the error map holds exactly the failed fields, each with its message, and is empty exactly when none failed |
| Session.AccountUser | src/components/auth/LoginPage.tsx:52-58 | the user handed to `setUser` carries the answer's id, name and email and no avatar |
| Session.FailureMessage | src/components/auth/LoginPage.tsx:79 | the server's message when it sent a non-empty one, the default otherwise |
| SignupPage.NoErrorsIffAcceptable | src/components/auth/SignupPage.tsx:33-45 | the recorded error map is empty exactly when the name and email are not blank, the email matches the pattern, the password has 6 UTF-16 code units or more and both passwords agree |
| SignupPage.Reports | src/components/auth/SignupPage.tsx:33-45 | the error map `validateForm` records for the given field values, field by field with its message |
| SignupPage.Acceptable | src/components/auth/SignupPage.tsx:33-45 | the values a registration is sent for: name and email not blank, the email matching the pattern, a password of six UTF-16 code units or more that the confirmation repeats |
| SignupPage.EmailErrorsExclusive | src/components/auth/SignupPage.tsx:37-38 | a blank email is 'required', and 'invalid' is only recorded for a non-blank email the pattern rejects |
| SignupPage.SignupForm.constructor | src/components/auth/SignupPage.tsx:15-24 | empty fields, no errors, not loading |
| SignupPage.SignupForm.HandleInputChange | src/components/auth/SignupPage.tsx:26-31 | updates one field and blanks only that field's recorded error |
| SignupPage.SignupForm.ValidateForm | src/components/auth/SignupPage.tsx:33-45 | name error exactly for a blank name; email 'required' when blank, else 'invalid' without a pattern match; password 'required' when empty, else 'too short' under 6 UTF-16 code units; mismatch exactly when the passwords differ; valid exactly when no error |
| SignupPage.SignupForm.HandleSubmit | src/components/auth/SignupPage.tsx:47-89 | an invalid form sends nothing and changes nothing; a valid one posts name, email and password; on success the token is stored, the user set only when `setUser` is supplied, the page 'home'; loading ends false |
| LoginPage.LoginForm.constructor | src/components/auth/LoginPage.tsx:15-20 | empty fields, remember-me off, not loading, no errors |
| LoginPage.LoginForm.HandleSubmit | src/components/auth/LoginPage.tsx:22-91 | errors cleared first; an empty email sets only the email error and an empty password only the password error, with no request; success stores the token, sets the user only when `setUser` is supplied, keeps the user record only with remember-me, goes 'home'; failure puts the server message or 'Invalid email or password' on both fields; loading ends false |
| Navigation.NavItemsShape | src/components/Navigation.tsx:19-24 | 'home' first; with a user exactly home, add-book, profile; without, exactly home, login; no id twice |
| Navigation.NavItems | src/components/Navigation.tsx:19-24 | home, then add-book and profile with a user, or login without one |
| Navigation.Highlighted | src/components/Navigation.tsx:67 | an item is highlighted when its id is the current page |
| Navigation.NavItemsRoute | src/components/Navigation.tsx:19-29 | every item id is a page the router recognises, and only the login item hides the navigation bar |
| Navigation.AtMostOneHighlighted | src/components/Navigation.tsx:62-67 | an item is highlighted when its id is the current page, and at most one is |
| Navigation.NavBar.constructor | src/components/Navigation.tsx:11-12 | menu closed, light mode |
| Navigation.NavBar.HandleNavClick | src/components/Navigation.tsx:26-29 | the page becomes the item id and the mobile menu closes |
| Navigation.NavBar.ToggleDarkMode | src/components/Navigation.tsx:14-17 | the flag flips, so two toggles restore it |
| Database.FindById | Bookreview-backend/controllers/bookController.js:51 | `None` exactly when no stored `_id` is the same ObjectId as the id, in whatever case it is spelt; otherwise a stored book whose `_id` is that ObjectId |
| Database.FindByIdUnique | Bookreview-backend/controllers/bookController.js:51 | with distinct stored-form ids, any spelling of a stored book's ObjectId finds that book |
| Database.ReviewsOf | Bookreview-backend/controllers/bookController.js:56 | `Review.find({ book })`: exactly the reviews whose `book` is the same ObjectId as the id, compared digit by digit whatever the case |
| Database.IsObjectId | Bookreview-backend/controllers/bookController.js:51 | what mongoose casts to an ObjectId: 24 hexadecimal digits of either case |
| Database.DigitValue | Bookreview-backend/controllers/bookController.js:51 | the value of a hexadecimal digit is below 16, and any other character gets 16 |
| Database.SameObjectId | Bookreview-backend/controllers/bookController.js:51 | two ids cast to the same ObjectId: both are ObjectIds with equal digit values |
| Database.IsStoredId | Bookreview-backend/controllers/bookController.js:8-15 | how MongoDB writes an ObjectId back: 24 digits with 'a'..'f' in lower case |
| Database.StoredSameIffEqual | Bookreview-backend/controllers/bookController.js:51 | two stored-form ids name the same ObjectId exactly when they are equal strings |
| Database.CastId | Bookreview-backend/controllers/reviewController.js:69 | the cast of an ObjectId string as it is stored: in stored form, naming the same ObjectId, and the only stored-form id that does |
| Database.SameObjectIdJoin | Bookreview-backend/controllers/bookController.js:51 | two ids naming the same ObjectId as a third name the same ObjectId as each other |
| Database.Db.Valid | Bookreview-backend/controllers/bookController.js:5-20 | the store's invariant: every book `_id` and every review `book` in stored form, and no two books with one `_id` |
| BookController.CreateBook | Bookreview-backend/controllers/bookController.js:5-20 | 201 exactly when title and author are present and non-empty, and then the book with the body's four fields, created by the user and with rating 0, is stored and returned; otherwise 500 and nothing stored; ids stay distinct ObjectIds in stored form |
| BookController.Present | Bookreview-backend/models/Book.js:5-6 | the schema's `required: true` on a string: a missing or empty value fails validation |
| BookController.RequestedPage | Bookreview-backend/controllers/bookController.js:24 | a page that is missing, not a number or 0 means page 1 |
| BookController.GetBooks | Bookreview-backend/controllers/bookController.js:23-34 | at most 5 books, the page's window starting at (page-1)*5, with totalPages = ceil(count/5); a negative page is refused with 500 |
| BookController.GetBooksCoversStore | Bookreview-backend/controllers/bookController.js:25-30 | the pages 1..totalPages partition the collection in store order, and later pages are empty |
| BookController.GetBookById | Bookreview-backend/controllers/bookController.js:49-76 | 500 exactly for an id that is not an ObjectId; 404 exactly for an ObjectId no stored `_id` matches; otherwise 200 with a book whose `_id` is that ObjectId and exactly the reviews whose `book` is that ObjectId; no body except with 200 |
| BookController.GetBookByIdFindsIt | Bookreview-backend/controllers/bookController.js:51-71 | with a valid store, any spelling of a stored book's ObjectId is answered with that book plus its reviews |
| BookController.Apply | Bookreview-backend/controllers/bookController.js:80 | each field present in the body replaces the stored one, a `createdBy` stored as the lower-case form of the ObjectId it casts to; the id and every absent field stay |
| BookController.UpdateWhere | Bookreview-backend/controllers/bookController.js:80 | same length and ids; only books whose `_id` is that ObjectId are updated |
| BookController.CreatorCasts | Bookreview-backend/controllers/bookController.js:80 | a `createdBy` in the body casts to an ObjectId |
| BookController.UpdateCastFails | Bookreview-backend/controllers/bookController.js:78-86 | the update throws a cast error: the id, or a `createdBy` in the body, is not an ObjectId |
| BookController.UpdateBook | Bookreview-backend/controllers/bookController.js:78-86 | 500 exactly when the id, or a `createdBy` in the body, is not an ObjectId, and then nothing changes; otherwise the book whose `_id` is that ObjectId takes the body's fields and is returned, others are untouched, and an ObjectId no book has changes nothing and returns null; ids stay distinct and in stored form |
| BookController.DeleteBook | Bookreview-backend/controllers/bookController.js:89-96 | 500 exactly when the id is not an ObjectId, and then nothing is removed; otherwise 200 and exactly the books whose `_id` is that ObjectId are removed; reviews are never touched |
| BookController.KeepIds | Bookreview-backend/controllers/bookController.js:91 | removing books keeps the remaining ids distinct |
| BookController.AppendFreshId | Bookreview-backend/controllers/bookController.js:8-14 | adding a book under a fresh id keeps ids distinct |
| ReviewController.AggregateOf | Bookreview-backend/controllers/reviewController.js:75-81 | the written count is the number of the book's reviews, and the written average is within 0.05 of their exact mean |
| ReviewController.SetAverage | Bookreview-backend/controllers/reviewController.js:78-81 | only books whose `_id` is that ObjectId get the new average; everything else is identical |
| ReviewController.AddReview | Bookreview-backend/controllers/reviewController.js:52-88 | a missing or falsy book, rating or comment gives 400, and a `book` that is not an ObjectId gives 500, both with the store unchanged; otherwise exactly one review by the user is appended with `book` in stored form, the count written is the stored count for that ObjectId plus one (so at least 1), the average is the rounded mean, only that book is updated, and 201 returns the review |
| ReviewController.StoreReview | Bookreview-backend/controllers/reviewController.js:67-81 | `Review.create`, `Review.find({ book })` and the write-back: the review appended, the aggregate of the reviews now stored for that ObjectId with count one more than before, only that book's average changed, and the store stays valid |
| ReviewController.StoredIdsKept | Bookreview-backend/controllers/reviewController.js:78-81 | a write that keeps every `_id` in place keeps them in stored form |
| ReviewController.StoredBooksAppend | Bookreview-backend/controllers/reviewController.js:67-72 | appending a review whose `book` is in stored form keeps every `book` in stored form |
| ReviewController.MissingField | Bookreview-backend/controllers/reviewController.js:60 | `!book \|\| !rating \|\| !comment`: a field is absent, or is '' or 0 |
| ReviewController.AggregateWithinStars | Bookreview-backend/controllers/reviewController.js:76-79 | ratings in 1..5 give a written average in 1.0..5.0 |
| ReviewController.SetAverageOthersUnchanged | Bookreview-backend/controllers/reviewController.js:78-81 | every book whose `_id` is another ObjectId survives the write unchanged |
| Text.BlankAfterTrim | src/components/books/BookForm.tsx:83 | `!s.trim()` holds exactly when the string is empty or all whitespace |
| Text.Trim | src/components/books/BookDetailsPage.tsx:549 | `trim`: the string without its leading and trailing white space, empty exactly for a blank string |
| Text.TrimEmptyIffBlank | src/components/books/BookDetailsPage.tsx:549 | trimming gives '' exactly for blank strings |
| Text.TrimIdempotent | src/components/books/BookDetailsPage.tsx:563 | trimming the trimmed text changes nothing |
| Text.ContainsIffOccurs | src/components/books/HomePage.tsx:42-43 | `includes` holds exactly when the query occurs at some position |
| Text.Contains | src/components/books/HomePage.tsx:42-43 | `includes`: the query occurs somewhere in the string |
| Text.Lower | src/components/books/HomePage.tsx:42-43 | `toLowerCase` on ASCII: the same length, each capital A-Z lowered and every other character kept |
| Text.ReplaceFirst | src/App.tsx:32 | `replace` of a string: the first occurrence is replaced, and a string without one is unchanged |
| Text.LexLeTotal | src/components/books/HomePage.tsx:56-58 | the stand-in for `localeCompare` orders every pair |
| Text.LexLeTransitive | src/components/books/HomePage.tsx:56-58 | that order is transitive |
| Text.LexLeAntisymmetric | src/components/books/HomePage.tsx:56-58 | two strings in order both ways are equal |
| Text.LexLe | src/components/books/HomePage.tsx:56-58 | the order standing in for `localeCompare`: code point by code point, a prefix first |
| Text.BeforeFirst | src/context/AppContext.tsx:188 | `split('@')[0]`: the prefix before the first '@', or the whole string |
| Text.EmailHasAtThenDot | src/components/auth/SignupPage.tsx:38 | a string that matches the pattern has an '@' followed later by a '.' |
| Text.LooksLikeEmail | src/components/auth/SignupPage.tsx:38 | `/\S+@\S+\.\S+/.test(s)`: some non-space, '@', at least one non-space up to a '.', and a non-space after it |
| Text.EmailUnanchored | src/components/auth/SignupPage.tsx:38 | the pattern is not anchored: text before or after a match keeps it a match |
| Text.EmailFromParts | src/components/auth/SignupPage.tsx:38 | a non-empty local part, domain and suffix without white space, joined as local@domain.suffix, are accepted |
| Text.Utf16Length | src/components/auth/SignupPage.tsx:40 | `.length`: between the number of characters and twice it, equal to it exactly when no character is above U+FFFF |
| Text.Utf16LengthConcat | src/components/auth/SignupPage.tsx:40 | code units add up over concatenation |
| Ratings.RoundHalfUpTenths | src/context/AppContext.tsx:289 | `Math.round(10·mean)`: within half a tenth of the mean, ties going up |
| Ratings.RoundHalfAwayTenths | Bookreview-backend/controllers/reviewController.js:79 | `toFixed(1)`: the nearest tenth, ties away from zero |
| Ratings.TenthsWithinBounds | src/components/profile/ProfilePage.tsx:96 | ratings between lo and hi give a mean and a rounded mean between them |
| Paging.PagesPartition | src/components/books/HomePage.tsx:71-73 | ceil(n/size) pages, each non-empty and equal to its window, whose concatenation is the list |
| Paging.PageBeyondLastIsEmpty | src/components/books/HomePage.tsx:72-73 | a page past the last is empty |
| Paging.PageCount | src/components/books/HomePage.tsx:71 | `Math.ceil(n / size)`: the fewest pages of `size` items that hold n items |
| Paging.Window | src/components/books/HomePage.tsx:73 | `slice(start, start + size)`: the items from `start` on, at most `size` of them |
| Paging.Pages | src/components/books/HomePage.tsx:71-73 | the listing cut into consecutive pages of `size` items |

## Left out

- Rendering: JSX, animations, class strings, toasts, `Footer.tsx`, and the distribution bar widths.
- Network calls and timing: every `API` call is an outcome passed in, and the mock one-second delays are dropped.
- The requests sent are returned as values (`Registration`, `Credentials`, `ReviewRequest`); HTTP itself is not modelled.
- Browser storage: the 'token' slot and the remembered user are a `Storage` object, and the details page only reads a `tokenStored` flag.
- The context's `bookReviewUser` load and save effects (src/context/AppContext.tsx:164-178) are not modelled.
- `document.documentElement.classList` is left out; only the dark-mode flag is modelled.
- Commented-out code: src/components/books/BookDetailsPage.tsx:1-430, the old controller versions, and the fetch sketch in HomePage.
- BookForm's `handleSubmit` (src/components/books/BookForm.tsx:34-36) refers to undeclared names and never validates, so it is not modelled as a working submit.
- BookForm's genre list is only used by the select's markup and is not modelled.
- Floating point: `Math.round(avg*10)/10` and `toFixed(1)` are exact roundings of the exact mean. Ties may differ from JavaScript's binary doubles, so no bit-exact agreement is claimed.
- Text.Lower: `toLowerCase` is modelled on ASCII only; other cased letters keep their case.
- Text.LexLe: `localeCompare` is modelled as code-point order, not a locale's collation.
- String semantics: `trim` and `\S` use the ECMAScript whitespace set, without Unicode normalisation. `.length` on a password counts UTF-16 code units (a character above U+FFFF is two), as JavaScript does. Other string methods are modelled on characters, not on UTF-16 code units.
- HomePage.SortCorrect: stability of `Array.prototype.sort` between books that tie on the key is modelled (the sort is a stable insertion), but is only proved for keys that are not one of the four; for the four keys the proof covers order and permutation only.
- The details page's fallback user object (`user || JSON.parse(localStorage.getItem('user'))`, src/components/books/BookDetailsPage.tsx:557-576): its fields are overwritten by the context's `addReview`, which does nothing without a context user, and the model follows that.
- Server plumbing: `server.js`, the routes (authentication is the controllers' precondition) and the mongoose driver.
- The Book schema has no `genre`, `year` or `reviewCount` fields. The stored book has only the schema's fields; the written `reviewCount` is part of the returned update but is not stored.
- A review insert is assumed to succeed for any body that passes the presence check and the id cast.
- `_id` values generated by MongoDB are parameters assumed fresh.
- `updateBook` bodies are limited to the schema fields; an `_id` in the body is not modelled.
- Unexpected server errors are only modelled where the input decides them: schema validation in `createBook`, a negative skip in `getBooks`, and ids that are not ObjectIds in `getBookById`, `updateBook`, `deleteBook` and `addReview`. A database that fails on its own is not modelled.
- Some driver versions also cast a 12-character string to an ObjectId, reading it as raw bytes. Only the 24-digit hexadecimal form is modelled, in either case; ObjectId objects that are not strings are not modelled.
- `models/Review.js` is not part of this model, so the cast of a review's `book` to an ObjectId is taken from the Book schema's own reference fields.
- BookDetails.DetailsView.SubmitText, SubmitReview and FinishPost require that a post without a book is never `Created`. The server answers such a post with 400: SubmitText's own `ensures` shows that the request fails `addReview`'s presence check.
- The concurrent race between inserting a review and recomputing the aggregate: the model is sequential.
