# Anime dashboard: recommendation page and character quiz

A Dafny model of the two pages of the anime dashboard that hold logic.

**The recommendation page (`pages/rec.py`)** runs these steps on the anime table:
- loads the table;
- drops six unused columns;
- drops every row with a NaN or an `'UNKNOWN'` cell;
- keeps the titles scored above 8;
- looks up the picked title;
- multi-hot encodes Genres and the five categorical columns;
- standardises the seven numeric columns;
- multiplies by 7.0 the columns named after the picked title's genres;
- builds one feature vector per title;
- asks a nearest-neighbour search for four ids;
- drops the picked id and keeps three;
- joins the ids back to the table;
- shows one line per row.

The script rebinds one table step by step, and the model does the same:
- `Page.Recommend` is a method that rebinds a local `Frame` (labels plus positional rows of cells) through the same steps.
- The three Python loops (encoding, standardising, weighting) and the display loop are methods with `while`/`for` loops.
- Each loop method is proved equal to a fold function.
- The properties are proved about those folds.
- The file is asked for one thing only (`Page.HasTextColumns`): the five categorical columns are there, and they and Genres, when it is there, hold text or NaN. Every other pandas or Python failure the script can meet is a `Fail(error)` value, not a precondition: KeyError, ValueError, TypeError, AttributeError and IndexError.

**The quiz page (`pages/quiz.py`)** is a five-question game kept in `st.session_state`:
- `Quiz.QuizSession` holds one field per session key.
- Each button handler is a method that updates those fields in place.
- `Snapshot()` gives the session as a `Session` value. The handlers are tied to transition functions on that value (`Fresh`, `Started`, `Drawn`, `Answered`).
- The invariant `Consistent` is proved to hold after each transition.
- The random draws (`sample`, `random.sample`, `random.shuffle`) are nondeterministic choices under the constraints the library guarantees.
- `random.shuffle` is Python's Fisher-Yates loop on an array.

Modules:
- `Strings`: `split`, `join`, Python string order, and MultiLabelBinarizer's `classes_`.
- `Table`: frames, drop, filter and subsequences.
- `Cleaning`: rec.py:18-43.
- `Encoding`: rec.py:47-60.
- `Scaling`: rec.py:62-75.
- `Retrieval`: rec.py:77-113.
- `Page`: the script as a whole.
- `Quiz`: quiz.py.

The model follows the code, including these behaviours:
- **Genres are split in two ways.** The pool's Genres cells are split on `","`, so every atom after the first keeps a leading blank. The picked title's genres are split on `", "`. As a result, only genres that appear first in some title's list find a column to weight (`Strings.CommaSplitKeepsBlank`).
- **Joined rows come back in table order**, not in neighbour order (`Retrieval.RecommendedInTableOrder`).
- **The Score shown is the standardised score**, not the rating from the file (`Retrieval.ShowRow`, `Retrieval.ShowAll`).
- **Genres are shown with two blanks** after each comma (`Retrieval.DisplayedGenresDoubleBlank`).
- **A genre listed twice is weighted twice** (`Scaling.WeightEffect`).
- **NaN becomes text.** A NaN categorical cell becomes the text "nan" and is encoded as the atom "nan" (`Encoding.CategoricalEncoded`).

## Model

| member | source | states |
|---|---|---|
| Strings.Split | pages/rec.py:43 | Python's `str.split` with a non-empty separator always returns at least one piece; its partners Strings.JoinSplit (the pieces joined with the separator give back the text) and Strings.SplitPiecesFree (no piece holds the separator) say it cuts at every occurrence, for instance "A,B, C" split on ", " gives "A,B" and "C" (Strings.SplitBareComma); Strings.SplitWhole and Strings.SplitFirst give the pieces in the common cases; also used at pages/rec.py:48 and 58 |
| Strings.SplitPiecesFree | pages/rec.py:43 | no piece of a split contains the separator anywhere: every occurrence of it in the text was cut |
| Strings.Join | pages/rec.py:113 | `sep.join`: one piece joins to itself; partners Strings.JoinSplit and Retrieval.JoinChars |
| Strings.SplitBareComma | pages/rec.py:43 | a comma not followed by a blank is no ", " separator: "A,B, C" splits into "A,B" and "C" |
| Strings.SplitWhole | pages/rec.py:43 | text without the separator's first character is one piece |
| Strings.SplitFirst | pages/rec.py:43 | a first piece that holds no copy of the separator's first character, followed by the separator, is cut off as the first piece and the rest is split on |
| Strings.JoinSplit | pages/rec.py:43 | joining the pieces of a split with the same separator gives the text back |
| Strings.CommaSplitKeepsBlank | pages/rec.py:43-48 | for comma-free a and b, splitting "a, b" on "," gives a and " b" (the blank stays); splitting it on ", " gives a and b |
| Strings.Classes | pages/rec.py:49-50 | MultiLabelBinarizer's classes: strictly ascending in Python string order, and a label is among them iff it occurs in some row's list |
| Table.Keep | pages/rec.py:18 | the positions of the labels not excluded: every kept position is a non-excluded label, every non-excluded label is kept, in increasing order |
| Table.Drop | pages/rec.py:18 | succeeds iff every named column is there; otherwise a KeyError naming an absent one; on success the remaining columns, in order, with their cells |
| Table.Filter | pages/rec.py:21 | an entry is kept iff it passes the mask; order is preserved (a subsequence), never longer |
| Table.FilterCounts | pages/rec.py:21 | each entry that passes is kept as many times as it occurs; the others not at all |
| Cleaning.DropUnknown | pages/rec.py:21 | a row is kept iff it holds no NaN and no 'UNKNOWN' cell; order preserved; columns unchanged |
| Cleaning.DropUnknownCounts | pages/rec.py:21 | every known row is kept as many times as the table holds it, every other row not at all |
| Cleaning.KeepAcclaimed | pages/rec.py:24 | fails iff Score is absent (KeyError) or some score is not a float (ValueError); otherwise a row is kept iff its score is a number above 8.0, in order |
| Cleaning.KeepAcclaimedCounts | pages/rec.py:24 | on success every row scored above 8.0 is kept as many times as the table holds it, every other row not at all |
| Cleaning.Clean | pages/rec.py:18-24 | the pool has none of the six dropped columns, has Score, and every row is free of NaN and 'UNKNOWN' and scored above 8 |
| Cleaning.DropKeepsColumn | pages/rec.py:18 | a column that is not dropped keeps every row's cell |
| Cleaning.FirstMatch | pages/rec.py:41 | the first row index holding the value, and None iff no row holds it |
| Cleaning.SelectQuery | pages/rec.py:41-43 | KeyError without English name, IndexError when no row matches, then KeyError without anime_id or without Genres, then AttributeError iff the first matching row's Genres cell is not text; on success the first matching row, its anime_id, and genres that are exactly the `", "`-split of the row's Genres text (and join back to it) |
| Encoding.Binarize | pages/rec.py:50-51 | `concat` of a frame with its indicator block: the old columns stay in front and every row's old cells are untouched |
| Encoding.BinarizeEncodes | pages/rec.py:49-51 | the appended columns are a multi-hot encoding: one column per distinct atom, named prefix + atom, no two alike, in ascending atom order, and a cell is 1.0 iff the row's list holds the atom, else 0.0 |
| Encoding.EncodeGenres | pages/rec.py:47-51 | without a Genres column nothing changes; otherwise the old columns stay in front, and every other text column remains text |
| Encoding.GenresEncoded | pages/rec.py:48-51 | the Genres cell becomes its ","-split list and the appended block is a multi-hot encoding of those lists named by the bare atoms |
| Encoding.PrefixedNamesAvoid | pages/rec.py:59 | a label without '_' is none of the appended names "<col>_<atom>" |
| Encoding.EncodeCategorical | pages/rec.py:55-60 | without the column nothing changes; otherwise the old columns stay in front, every non-NaN cell of them is kept, and every text column whose label has no '_' remains text |
| Encoding.CategoricalEncoded | pages/rec.py:56-60 | the cell becomes its text (NaN becomes "nan") and the appended block is a multi-hot encoding of the ", "-split texts named "<col>_<atom>" |
| Encoding.EncodeEach | pages/rec.py:54-60 | the loop over the columns keeps the row count, the old columns in front, and every non-NaN cell of them |
| Encoding.EncodeAll | pages/rec.py:54-60 | the same for the five categorical columns: old columns in front, every non-NaN cell of them kept |
| Encoding.EncodeStep | pages/rec.py:54-60 | one turn of the loop leaves the remaining columns encodable and the rest of the loop computes the same frame |
| Encoding.EncodeCategoricals | pages/rec.py:54-60 | on columns that pass the text check, the loop computes exactly EncodeAll, the encoding of each of Type, Producers, Licensors, Studios, Source |
| Scaling.StandardizeColumn | pages/rec.py:66 | KeyError without the column, ValueError with no rows or a non-number; otherwise only that column is replaced, by the scaler's values in row order |
| Scaling.StandardizeAll | pages/rec.py:65-66 | on success the labels and the number of rows are unchanged; a failure is a ValueError or the KeyError of a listed label |
| Scaling.StandardizeAllUntouched | pages/rec.py:63-66 | on success every listed column was there and every unlisted column is untouched |
| Scaling.StandardizeAllNumeric | pages/rec.py:63-66 | on success every listed column holds numbers only |
| Scaling.StandardizeAllValues | pages/rec.py:63-66 | with no label listed twice, on success every listed column was a column of numbers and now holds, row by row, the scaler's output on those numbers |
| Scaling.StandardizeAllSucceeds | pages/rec.py:63-66 | with no label listed twice, the loop succeeds iff there are no labels, or the table has rows and every listed label is a column of numbers |
| Scaling.Standardize | pages/rec.py:63-66 | the loop computes exactly StandardizeAll over the seven numeric columns |
| Scaling.ScaleLabel | pages/rec.py:75 | succeeds iff every cell under the label is a number or NaN, else TypeError; every column with the label is multiplied, every other cell is unchanged |
| Scaling.WeightAll | pages/rec.py:73-75 | on success labels and row count are unchanged; the only failure is a TypeError |
| Scaling.WeightSucceeds | pages/rec.py:73-75 | the weighting succeeds iff every cell of a column named after a picked genre is a number or NaN |
| Scaling.WeightEffect | pages/rec.py:70-75 | each cell ends multiplied by 7.0 to the power of the number of times its column's label is among the picked genres: unlisted columns are untouched, a repeated genre compounds |
| Scaling.Weight | pages/rec.py:70-75 | the loop computes exactly WeightAll with the factor 7.0 |
| Retrieval.FeaturePositions | pages/rec.py:79 | exactly the columns not in the eleven excluded labels, in column order |
| Retrieval.Vector | pages/rec.py:80-83 | one number per feature column, in column order, equal to the row's cell |
| Retrieval.Points | pages/rec.py:79-90 | ValueError when a feature cell is not a number, then KeyError without anime_id; otherwise one point per row in row order, with that row's id and a vector of the same length for every row |
| Retrieval.QueryVector | pages/rec.py:99-102 | fails (TypeError) iff no point has the id; otherwise the vector of a point with that id |
| Retrieval.Similar | pages/rec.py:105 | exactly the first three of the neighbours other than the pick (all of them when there are fewer), in their order; so never the picked id and at most three |
| Retrieval.Recommended | pages/rec.py:108 | KeyError iff anime_id is absent; otherwise a row is returned iff its id is listed, as a subsequence of the table |
| Retrieval.RecommendedCounts | pages/rec.py:108 | every row whose id is listed comes back as many times as the table holds it, every other row not at all |
| Retrieval.RecommendedInTableOrder | pages/rec.py:108 | neighbours listed as 2 then 1 come back as rows 1 then 2 |
| Retrieval.RecommendedAtMost | pages/rec.py:105-108 | when anime_id is a key of the table, no more rows come back than ids were listed |
| Retrieval.GenreText | pages/rec.py:113 | `', '.join` of a list joins its atoms with ", "; of a string spells out its characters with ", " between them; a TypeError otherwise |
| Retrieval.JoinChars | pages/rec.py:113 | joining a string's characters with ", " puts character i at place 3i and ", " between neighbours |
| Retrieval.ShowRow | pages/rec.py:113 | the f-string's errors in evaluation order: KeyError without English name, then without Genres, a TypeError when the Genres cell cannot be joined, then KeyError without Score; otherwise a line with the row's English name, its joined Genres and its (standardised) Score cell |
| Retrieval.ShowAll | pages/rec.py:112-113 | the loop's value: it succeeds iff every row can be shown, then one line per row in row order, each that row's line; otherwise the error of a row before which every row could be shown, i.e. the first failing row (Retrieval.ShowAllFirstFail) |
| Retrieval.ShowAllFirstFail | pages/rec.py:112-113 | when rows 0..n-1 can be shown and row n cannot, the loop ends with row n's error |
| Retrieval.ShowAllEvery | pages/rec.py:112-113 | when every row shows as the given lines, the loop's value is exactly those lines |
| Retrieval.Display | pages/rec.py:112-113 | the loop computes exactly ShowAll over the joined rows |
| Retrieval.DisplayedGenresDoubleBlank | pages/rec.py:48-113 | a Genres text "a, b" is shown as "a,  b" |
| Page.CleanKeepsText | pages/rec.py:18-24 | a text column that is not dropped is still a text column of the pool |
| Page.CleanAddsNone | pages/rec.py:18-24 | the cleaning adds no column |
| Page.PoolReady | pages/rec.py:18-24 | the pool keeps the five categorical columns as text columns, and Genres, when there, as text |
| Page.GenresKeepText | pages/rec.py:47-56 | after the genre encoding the five categorical columns are still text and can be encoded |
| Page.Encoded | pages/rec.py:47-60 | the cleaned table's columns, then the genre-encoded table's columns, stay in front, and the loop keeps every non-NaN cell of the genre-encoded table |
| Page.EncodedCells | pages/rec.py:47-60 | every non-NaN cell of the cleaned table except those under Genres is kept; each Genres cell becomes its title's ","-split list of atoms |
| Page.Prepare | pages/rec.py:18-75 | a failed cleaning is the outcome; otherwise the outcome is PrepareCleaned on the pool; on success the pick is SelectQuery's answer on the pool, and the weighted table keeps the pool's columns in front and has as many rows as the pool (what happens to the cells: Page.EncodedCells, Page.GenreColumnsWeighted) |
| Page.PrepareCleaned | pages/rec.py:38-75 | on success the pick is SelectQuery's answer, and the weighted table keeps the pool's columns in front and has as many rows as the pool (what happens to the cells: Page.EncodedCells, Page.GenreColumnsWeighted) |
| Page.PrepareCleanedOutcome | pages/rec.py:38-75 | the look-up's error if it fails; then the standardising's error (a ValueError or a numeric label's KeyError) iff some numeric label is not a column of numbers of the encoded table; then success iff every column named after a picked genre holds numbers or NaN, else a TypeError |
| Page.GenreColumnsWeighted | pages/rec.py:47-75 | on success every appended genre column whose label is not a numeric label holds 7.0 to the power of the genre's count among the picked genres for a title with that genre, and 0 for a title without it |
| Page.WeightedFrames | pages/rec.py:54-75 | the categorical loop, the standardising of other columns and the weighting take a genre indicator cell to that weighted value |
| Page.AnswersDeliver | pages/rec.py:77-113 | a page that gets through every step shows the search's ids without the pick, at most three, exactly the table rows with those ids in table order, and ShowAll's lines for them |
| Page.Recommend | pages/rec.py:15-113 | fails with Prepare's error, then with the first failing later step's error (points, the pick's vector, the display); otherwise succeeds, and what it shows is what AnswersDeliver states |
| Quiz.Mangas | pages/quiz.py:38 | each manga of the file (NaN left out) exactly once |
| Quiz.Choices | pages/quiz.py:38 | "Tous" first, then exactly the mangas of the file |
| Quiz.Pool | pages/quiz.py:44-48 | every character for no manga, else exactly the characters of that manga |
| Quiz.PoolCounts | pages/quiz.py:48 | each character of the chosen manga is kept as many times as the file holds it, every other one not at all |
| Quiz.Remaining | pages/quiz.py:59-61 | exactly the pool's characters whose name is not used |
| Quiz.RemainingCounts | pages/quiz.py:59-61 | each character whose name is not used is kept as many times as the pool holds it, every other one not at all |
| Quiz.Others | pages/quiz.py:79-81 | exactly the names different from the right one |
| Quiz.OthersCounts | pages/quiz.py:79-81 | each wrong name is kept as many times as it occurs, the right one not at all |
| Quiz.FreshConsistent | pages/quiz.py:20-31 | the initial session satisfies the invariant |
| Quiz.StartSelects | pages/quiz.py:42-51 | Start keeps the invariant, sets both flags, and keeps all data with no manga for "Tous", else exactly the characters of the chosen manga |
| Quiz.DrawConsistent | pages/quiz.py:57-64 | the drawn character's name was not used, and the session stays consistent after it is appended |
| Quiz.DistinctCard | pages/quiz.py:64 | used names, being distinct, are as many as their set |
| Quiz.DrawSucceeds | pages/quiz.py:56-62 | with at least five different names in the pool, a draw always finds an unused character |
| Quiz.OptionsOffer | pages/quiz.py:75-83 | the options contain the right name and only pool names; four options when the pool has more than four names, else the right name plus every other name |
| Quiz.OptionsConsistent | pages/quiz.py:74-84 | storing such options keeps the session consistent |
| Quiz.AnswerScores | pages/quiz.py:89-101 | the index goes up by one; the score goes up by one iff the guess is right and stays otherwise; the invariant (score ≤ index ≤ 5) holds |
| Quiz.GameOver | pages/quiz.py:120-122 | at game over five questions were asked with five distinct characters, nothing is pending and the score is at most five |
| Quiz.Sample | pages/quiz.py:79 | ValueError iff more entries are asked than there are; otherwise k entries from distinct places (a sub-multiset) |
| Quiz.Shuffle | pages/quiz.py:83 | the array ends as a permutation of itself |
| Quiz.MakeOptions | pages/quiz.py:75-83 | ValueError iff there are more than four names but fewer than three others; otherwise options that satisfy OptionsFor |
| Quiz.QuizSession.constructor | pages/quiz.py:20-31 | the session starts as the initial session |
| Quiz.QuizSession.Start | pages/quiz.py:42-51 | the new session is Started of the old one, and it is consistent |
| Quiz.QuizSession.Draw | pages/quiz.py:57-64 | with a pending character nothing changes; else ValueError iff no unused character is left, or one is drawn from those and appended |
| Quiz.QuizSession.BuildOptions | pages/quiz.py:74-84 | stored options are kept; otherwise the failure of MakeOptions leaves the session as it was, or the options it gives are stored and nothing else changes |
| Quiz.QuizSession.Validate | pages/quiz.py:89-102 | the new session is Answered of the old one, and it is consistent |
| Quiz.QuizSession.Reset | pages/quiz.py:105-137 | Stop and Replay both give back the initial session |
| Quiz.QuizSession.FinalScore | pages/quiz.py:121-122 | the score shown is out of 5 and at most 5 |

## Left out

- Loading the CSV files (rec.py:15, quiz.py:10) is left out. The table is a parameter and numbers arrive as numbers. Parsing of decimal text is not modelled.
- Page.Recommend: requires the five categorical columns to hold text or NaN, and Genres too when it is there. `astype(str)` of a number or a list is not modelled.
- Page.Recommend: also requires the five categorical columns to be there, though rec.py:55 skips an absent one. Without it, a genre atom of the same name would supply that label as a column of 0/1 numbers, and `astype(str)` of numbers is not modelled.
- Encoding.AsStr: the same restriction, for one cell.
- Cleaning.KeepAcclaimed: a Score cell that holds text is a ValueError even when the text spells a number. The loader is taken to give numbers as numbers.
- Retrieval.Points: a NaN feature cell is rejected like text, where numpy would accept it. No NaN is left after the cleaning at rec.py:21.
- Page.Recommend: the feature vector stays in the points and is not added to the table as a `features` column (rec.py:80-87). The join and the display do not read that column.
- The Spark session and DataFrame (rec.py:12, 90) are a sequence of points.
- The LSH model (rec.py:95-102) is the parameter `nearest`. Distances and their order are not modelled.
- StandardScaler (rec.py:64-66) is the parameter `scale`, taken to return one value per sample. The floating-point mean and deviation are not modelled.
- Scaling.StandardizeColumn: a NaN cell in a numeric column is a ValueError, where StandardScaler would ignore it when fitting and keep it as NaN. The cleaning at rec.py:21 leaves no NaN in the table, so on the page this case does not arise.
- Page.GenreColumnsWeighted: says nothing about a genre column whose label is also a numeric label (a genre named "Score", say), which the standardising may then rescale.
- Reals are exact, with no floating-point rounding.
- Duplicate column labels are handled in one way: a lookup uses the first column with the label, and `*=` scales every column with the label. The frames pandas returns for repeated labels are not modelled.
- Streamlit output is not modelled: the CSS, titles, selectbox, radio, buttons, messages and `st.rerun`.
  - The picked title, the manga choice and the guess are parameters.
  - A displayed line keeps its three values and not their markdown text.
- The character picture download and blur (quiz.py:12-17, 67-71) are not modelled, and neither is `time.sleep`.
- The random number generator is not modelled. Each draw is a nondeterministic choice among the outcomes the library allows.
- Quiz.QuizSession.Start, Draw, BuildOptions and Validate require the screen their button is on: the selection screen, a question with index below 5, and a drawn character.
- Quiz.QuizSession.Reset is one method for Stop (quiz.py:105-118) and Replay (quiz.py:125-137), which write the same values.
