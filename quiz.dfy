/**
 * The character quiz page (pages/quiz.py): a Streamlit session holds the
 * state of a five-question game in which the player names a character from
 * a blurred picture. Each button press runs a handler that updates the
 * session fields in place. The random draws are nondeterministic choices;
 * the picture download and blur, the pauses and the widgets are not
 * modelled.
 */
module Quiz {
  import opened Table

  /** One row of anime_planet_characters.csv: 'Nom', 'Image' and
      'Manga Associé' (NaN when the file gives none). */
  datatype Character = Character(name: string, image: string, manga: Option<string>)

  /** The choice that keeps every character. */
  const All: string := "Tous"

  /** Questions in one game. */
  const Questions: nat := 5

  /** `filtered_data['Nom'].tolist()`. */
  function Names(cs: seq<Character>): (r: seq<string>)
    ensures |r| == |cs| && forall i | 0 <= i < |cs| :: r[i] == cs[i].name
  {
    seq(|cs|, i requires 0 <= i < |cs| => cs[i].name)
  }

  /** The mangas of the file without NaN, each once, in order of first
      appearance (`data['Manga Associé'].dropna().unique()`). */
  function Mangas(cs: seq<Character>): (r: seq<string>)
    ensures forall m :: m in r <==> exists c | c in cs :: c.manga == Some(m)
    ensures Distinct(r)
  {
    if cs == [] then []
    else
      var front := cs[..|cs| - 1];
      var last := cs[|cs| - 1];
      var r := Mangas(front);
      assert forall c | c in cs :: c in front || c == last by {
        assert cs == front + [last];
      }
      if last.manga.Some? && last.manga.value !in r then r + [last.manga.value] else r
  }

  /** quiz.py:38: the entries of the selection box. */
  function Choices(data: seq<Character>): (r: seq<string>)
    ensures |r| >= 1 && r[0] == All
    ensures forall m :: m in r[1..] <==> exists c | c in data :: c.manga == Some(m)
  {
    [All] + Mangas(data)
  }

  /** The characters a game is played on: all of them, or those of one
      manga (a NaN manga equals nothing). */
  function Pool(data: seq<Character>, manga: Option<string>): (r: seq<Character>)
    ensures manga.None? ==> r == data
    ensures manga.Some? ==> forall c :: c in r <==> c in data && c.manga == manga
  {
    match manga
    case None => data
    case Some(m) => Filter(data, (c: Character) => c.manga == Some(m))
  }

  /** The pool of a picked manga holds each of its characters' rows as
      often as the file does. */
  lemma PoolCounts(data: seq<Character>, m: string)
    ensures forall c :: multiset(Pool(data, Some(m)))[c] == if c.manga == Some(m) then multiset(data)[c] else 0
  {
    FilterCounts(data, (c: Character) => c.manga == Some(m));
  }

  /** `filtered_data[~filtered_data['Nom'].isin(used_characters)]`. */
  function Remaining(cs: seq<Character>, used: seq<string>): (r: seq<Character>)
    ensures forall c :: c in r <==> c in cs && c.name !in used
  {
    Filter(cs, (c: Character) => c.name !in used)
  }

  /** Each character not yet asked about is left as often as it was there. */
  lemma RemainingCounts(cs: seq<Character>, used: seq<string>)
    ensures forall c :: multiset(Remaining(cs, used))[c] == if c.name !in used then multiset(cs)[c] else 0
  {
    FilterCounts(cs, (c: Character) => c.name !in used);
  }

  /** `[name for name in options if name != character['Nom']]`. */
  function Others(names: seq<string>, correct: string): (r: seq<string>)
    ensures forall n :: n in r <==> n in names && n != correct
  {
    Filter(names, (n: string) => n != correct)
  }

  /** Each wrong name is kept as often as it was among the names. */
  lemma OthersCounts(names: seq<string>, correct: string)
    ensures forall n :: multiset(Others(names, correct))[n] == if n != correct then multiset(names)[n] else 0
  {
    FilterCounts(names, (n: string) => n != correct);
  }

  /** The value of `st.session_state`, one field per key. */
  datatype Session = Session(
    quizStarted: bool,
    animeSelected: bool,
    questionIndex: nat,
    score: nat,
    currentCharacter: Option<Character>,
    selectedAnime: Option<string>,
    filteredData: seq<Character>,
    options: Option<seq<string>>,
    usedCharacters: seq<string>)

  /** quiz.py:20-31, and what Stop and Replay write back (106-116, 126-136). */
  function Fresh(data: seq<Character>): Session
  {
    Session(false, false, 0, 0, None, None, data, None, [])
  }

  /** quiz.py:44-51: the Start button. */
  function Started(s: Session, data: seq<Character>, choice: string): Session
  {
    if choice != All then
      s.(filteredData := Pool(data, Some(choice)), selectedAnime := Some(choice),
         animeSelected := true, quizStarted := true)
    else
      s.(filteredData := data, selectedAnime := None, animeSelected := true, quizStarted := true)
  }

  /** quiz.py:62-64: `c` becomes the question and its name is used up. */
  function Drawn(s: Session, c: Character): Session
  {
    s.(currentCharacter := Some(c), usedCharacters := s.usedCharacters + [c.name])
  }

  /** quiz.py:91-101: the Valider button. */
  function Answered(s: Session, guess: string): Session
    requires s.currentCharacter.Some?
  {
    var point := if guess == s.currentCharacter.value.name then 1 else 0;
    s.(score := s.score + point, questionIndex := s.questionIndex + 1,
       currentCharacter := None, options := None)
  }

  /** quiz.py:78-79: with more than four names, `random.sample` needs three
      names other than the right one, and raises ValueError without them. */
  predicate ShortOfOthers(names: seq<string>, correct: string)
  {
    |names| > 4 && |Others(names, correct)| < 3
  }

  /** quiz.py:75-83: what the shuffled options may be. With more than four
      names: the right name once and three others taken from distinct
      places of the other names; otherwise the right name and every other
      name. */
  predicate OptionsFor(names: seq<string>, correct: string, options: seq<string>)
  {
    var others := multiset(Others(names, correct));
    if |names| > 4 then
      |options| == 4 && multiset(options)[correct] == 1
      && multiset(options) <= multiset{correct} + others
    else
      multiset(options) == multiset{correct} + others
  }

  /** The game is over (quiz.py:121-122). */
  predicate Over(s: Session)
  {
    s.quizStarted && s.animeSelected && s.questionIndex >= Questions
  }

  /** What holds of the session between two runs of the page. */
  predicate Consistent(data: seq<Character>, s: Session)
  {
    && s.score <= s.questionIndex <= Questions
    && s.quizStarted == s.animeSelected
    && (!s.animeSelected ==> s == Fresh(data))
    && s.filteredData == Pool(data, s.selectedAnime)
    && Distinct(s.usedCharacters)
    && (forall n | n in s.usedCharacters :: n in Names(s.filteredData))
    && |s.usedCharacters| == s.questionIndex + (if s.currentCharacter.Some? then 1 else 0)
    && (s.currentCharacter.Some? ==>
          && s.questionIndex < Questions
          && s.currentCharacter.value in s.filteredData
          && s.usedCharacters[|s.usedCharacters| - 1] == s.currentCharacter.value.name)
    && (s.options.Some? ==>
          && s.currentCharacter.Some?
          && s.currentCharacter.value.name in s.options.value
          && forall n | n in s.options.value :: n in Names(s.filteredData))
  }

  lemma FreshConsistent(data: seq<Character>)
    ensures Consistent(data, Fresh(data))
  {
  }

  /** Start keeps the pool the choice names: everything for "Tous", else the
      characters of that manga. */
  lemma StartSelects(data: seq<Character>, s: Session, choice: string)
    requires Consistent(data, s) && !s.animeSelected
    ensures Consistent(data, Started(s, data, choice))
    ensures var t := Started(s, data, choice);
            && t.quizStarted && t.animeSelected
            && (choice == All ==> t.filteredData == data && t.selectedAnime.None?)
            && (choice != All ==>
                  && t.selectedAnime == Some(choice)
                  && forall c :: c in t.filteredData <==> c in data && c.manga == Some(choice))
  {
  }

  /** A draw takes a character whose name is not used yet, and appends it. */
  lemma DrawConsistent(data: seq<Character>, s: Session, c: Character)
    requires Consistent(data, s) && s.animeSelected && s.questionIndex < Questions
    requires s.currentCharacter.None? && c in Remaining(s.filteredData, s.usedCharacters)
    ensures c.name !in s.usedCharacters
    ensures Consistent(data, Drawn(s, c))
  {
    var t := Drawn(s, c);
    assert c.name in Names(s.filteredData) by {
      var i :| 0 <= i < |s.filteredData| && s.filteredData[i] == c;
    }
    assert forall n | n in t.usedCharacters :: n in s.usedCharacters || n == c.name;
  }

  /** A sequence of distinct names has as many names as its set. */
  lemma {:induction false} DistinctCard(names: seq<string>)
    requires Distinct(names)
    ensures |set n | n in names| == |names|
  {
    if names != [] {
      var rest := names[1..];
      DistinctCard(rest);
      assert (set n | n in names) == (set n | n in rest) + {names[0]} by {
        assert names == [names[0]] + rest;
      }
      assert names[0] !in rest by {
        forall k | 0 <= k < |rest| ensures rest[k] != names[0] {
          assert rest[k] == names[k + 1];
        }
      }
    }
  }

  /** A pool with at least five different names never runs dry: the draw
      of quiz.py:59-62 then always finds an unused character. */
  lemma DrawSucceeds(data: seq<Character>, s: Session)
    requires Consistent(data, s) && s.animeSelected && s.questionIndex < Questions
    requires s.currentCharacter.None?
    requires |set n | n in Names(s.filteredData)| >= Questions
    ensures Remaining(s.filteredData, s.usedCharacters) != []
  {
    var used := set n | n in s.usedCharacters;
    DistinctCard(s.usedCharacters);
    if Remaining(s.filteredData, s.usedCharacters) == [] {
      var names := Names(s.filteredData);
      assert (set n | n in names) <= used by {
        forall n | n in names ensures n in used {
          var i :| 0 <= i < |names| && names[i] == n;
          assert s.filteredData[i] in s.filteredData;
        }
      }
      SubsetCard((set n | n in names), used);
      assert false;
    }
  }

  /** A subset is no larger than the set that holds it. */
  lemma SubsetCard(a: set<string>, b: set<string>)
    requires a <= b
    ensures |a| <= |b|
  {
    assert b == a + (b - a);
  }

  /** Options built by the rules always offer the right name, and only
      names of the pool. */
  lemma OptionsOffer(names: seq<string>, correct: string, options: seq<string>)
    requires correct in names && OptionsFor(names, correct, options)
    ensures correct in options
    ensures forall n | n in options :: n in names
    ensures |names| > 4 ==> |options| == 4 && |Others(names, correct)| >= 3
    ensures |names| <= 4 ==> |options| == 1 + |Others(names, correct)|
  {
    var others := Others(names, correct);
    assert multiset(options)[correct] > 0;
    forall n | n in options ensures n in names {
      assert multiset(options)[n] > 0;
      if n != correct {
        assert n in multiset(others);
      }
    }
    if |names| > 4 {
      var rest := multiset(options) - multiset{correct};
      assert rest <= multiset(others);
      assert |rest| == 3;
      assert multiset(others) == rest + (multiset(others) - rest);
    } else {
      assert |multiset(options)| == |multiset{correct} + multiset(others)|;
    }
  }

  /** quiz.py:91-101: a right guess scores exactly one point, a wrong one
      none; either way the next question comes, so the score never passes
      the number of questions asked. */
  lemma AnswerScores(data: seq<Character>, s: Session, guess: string)
    requires Consistent(data, s) && s.currentCharacter.Some?
    ensures var t := Answered(s, guess);
            && Consistent(data, t)
            && t.questionIndex == s.questionIndex + 1
            && (guess == s.currentCharacter.value.name <==> t.score == s.score + 1)
            && (guess != s.currentCharacter.value.name <==> t.score == s.score)
  {
  }

  /** When the game is over, five questions were asked, each with its own
      character, and the score is out of five. */
  lemma GameOver(data: seq<Character>, s: Session)
    requires Consistent(data, s) && Over(s)
    ensures s.questionIndex == Questions && s.score <= Questions
    ensures s.currentCharacter.None? && s.options.None?
    ensures |s.usedCharacters| == Questions && Distinct(s.usedCharacters)
  {
  }

  /** `random.sample(population, k)`: k entries from distinct places, or a
      ValueError when there are fewer than k. */
  method Sample(population: seq<string>, k: nat) returns (r: Outcome<seq<string>>)
    ensures r.Fail? <==> k > |population|
    ensures r.Fail? ==> r.error == ValueError
    ensures r.Ok? ==> |r.value| == k && multiset(r.value) <= multiset(population)
  {
    if k > |population| {
      return Fail(ValueError);
    }
    var picked: seq<string> := [];
    var rest := population;
    while |picked| < k
      invariant |picked| <= k && |picked| + |rest| == |population|
      invariant multiset(picked) + multiset(rest) == multiset(population)
      decreases k - |picked|
    {
      var i :| 0 <= i < |rest|;
      assert rest == rest[..i] + [rest[i]] + rest[i + 1..];
      picked := picked + [rest[i]];
      rest := rest[..i] + rest[i + 1..];
    }
    return Ok(picked);
  }

  /** `random.shuffle`: Fisher-Yates, swapping each place from the end with
      one at or before it. */
  method Shuffle(a: array<string>)
    modifies a
    ensures multiset(a[..]) == multiset(old(a[..]))
  {
    var i := a.Length;
    while i > 1
      invariant 0 <= i <= a.Length
      invariant multiset(a[..]) == multiset(old(a[..]))
    {
      var j :| 0 <= j < i;
      a[i - 1], a[j] := a[j], a[i - 1];
      i := i - 1;
    }
  }

  /** quiz.py:75-83: the names of the pool, the right one first, cut down
      to four by `random.sample` when there are more than four, then
      shuffled. */
  method MakeOptions(names: seq<string>, correct: string) returns (r: Outcome<seq<string>>)
    ensures r.Fail? <==> ShortOfOthers(names, correct)
    ensures r.Fail? ==> r.error == ValueError
    ensures r.Ok? ==> OptionsFor(names, correct, r.value)
  {
    var others := Others(names, correct);
    assert correct !in others;
    assert correct !in multiset(others);
    var opts: seq<string>;
    if |names| > 4 {
      var picks :- Sample(others, 3);
      opts := [correct] + picks;
    } else {
      opts := [correct] + others;
    }
    var a := new string[|opts|](i requires 0 <= i < |opts| => opts[i]);
    assert a[..] == opts;
    Shuffle(a);
    return Ok(a[..]);
  }

  /** Options built by the rules keep the session consistent. */
  lemma OptionsConsistent(data: seq<Character>, s: Session, options: seq<string>)
    requires Consistent(data, s) && s.currentCharacter.Some? && s.options.None?
    requires OptionsFor(Names(s.filteredData), s.currentCharacter.value.name, options)
    ensures Consistent(data, s.(options := Some(options)))
  {
    var names := Names(s.filteredData);
    assert s.currentCharacter.value.name in names by {
      var k :| 0 <= k < |s.filteredData| && s.filteredData[k] == s.currentCharacter.value;
    }
    OptionsOffer(names, s.currentCharacter.value.name, options);
  }

  /** `st.session_state` of one browser session. */
  class QuizSession {
    const data: seq<Character>
    var quizStarted: bool
    var animeSelected: bool
    var questionIndex: nat
    var score: nat
    var currentCharacter: Option<Character>
    var selectedAnime: Option<string>
    var filteredData: seq<Character>
    var options: Option<seq<string>>
    var usedCharacters: seq<string>

    function Snapshot(): Session
      reads this
    {
      Session(quizStarted, animeSelected, questionIndex, score, currentCharacter,
              selectedAnime, filteredData, options, usedCharacters)
    }

    predicate Valid()
      reads this
    {
      Consistent(data, Snapshot())
    }

    /** quiz.py:20-31. */
    constructor (data: seq<Character>)
      ensures this.data == data && Snapshot() == Fresh(data) && Valid()
    {
      this.data := data;
      quizStarted := false;
      animeSelected := false;
      questionIndex := 0;
      score := 0;
      currentCharacter := None;
      selectedAnime := None;
      filteredData := data;
      options := None;
      usedCharacters := [];
    }

    /** quiz.py:42-51: the Start button, on the selection screen. */
    method Start(choice: string)
      requires Valid() && !animeSelected
      modifies this
      ensures Valid() && Snapshot() == Started(old(Snapshot()), data, choice)
    {
      StartSelects(data, Snapshot(), choice);
      if choice != All {
        filteredData := Filter(data, (c: Character) => c.manga == Some(choice));
        selectedAnime := Some(choice);
      } else {
        filteredData := data;
        selectedAnime := None;
      }
      animeSelected := true;
      quizStarted := true;
    }

    /** quiz.py:57-64: the question's character, drawn among those whose
        name is not used yet when there is none. A ValueError when every
        name of the pool is used. */
    method Draw() returns (r: Outcome<Character>)
      requires Valid() && animeSelected && questionIndex < Questions
      modifies this
      ensures Valid()
      ensures old(currentCharacter).Some? ==> r == Ok(old(currentCharacter).value) && Snapshot() == old(Snapshot())
      ensures old(currentCharacter).None? ==> (r.Fail? <==> Remaining(old(filteredData), old(usedCharacters)) == [])
      ensures r.Fail? ==> r.error == ValueError && Snapshot() == old(Snapshot())
      ensures old(currentCharacter).None? && r.Ok? ==>
                && r.value in Remaining(old(filteredData), old(usedCharacters))
                && Snapshot() == Drawn(old(Snapshot()), r.value)
    {
      if currentCharacter.Some? {
        return Ok(currentCharacter.value);
      }
      var available := Remaining(filteredData, usedCharacters);
      if available == [] {
        return Fail(ValueError);
      }
      var c :| c in available;
      DrawConsistent(data, Snapshot(), c);
      currentCharacter := Some(c);
      usedCharacters := usedCharacters + [c.name];
      return Ok(c);
    }

    /** quiz.py:74-84: the options of the question, built once. */
    method BuildOptions() returns (r: Outcome<seq<string>>)
      requires Valid() && currentCharacter.Some?
      modifies this
      ensures Valid()
      ensures old(options).Some? ==> r == Ok(old(options).value) && Snapshot() == old(Snapshot())
      ensures old(options).None? ==>
                (r.Fail? <==> ShortOfOthers(Names(old(filteredData)), old(currentCharacter).value.name))
      ensures r.Fail? ==> r.error == ValueError && Snapshot() == old(Snapshot())
      ensures old(options).None? && r.Ok? ==>
                && OptionsFor(Names(old(filteredData)), old(currentCharacter).value.name, r.value)
                && Snapshot() == old(Snapshot()).(options := Some(r.value))
    {
      if options.Some? {
        return Ok(options.value);
      }
      var opts :- MakeOptions(Names(filteredData), currentCharacter.value.name);
      OptionsConsistent(data, Snapshot(), opts);
      options := Some(opts);
      return Ok(opts);
    }

    /** quiz.py:89-102: the Valider button. */
    method Validate(guess: string)
      requires Valid() && currentCharacter.Some?
      modifies this
      ensures Valid() && Snapshot() == Answered(old(Snapshot()), guess)
    {
      var point := if guess == currentCharacter.value.name then 1 else 0;
      AnswerScores(data, Snapshot(), guess);
      score, questionIndex, currentCharacter, options := score + point, questionIndex + 1, None, None;
    }

    /** quiz.py:105-118 and 125-137: the Stop and Replay buttons write the
        initial session back. */
    method Reset()
      modifies this
      ensures Valid() && Snapshot() == Fresh(data)
    {
      quizStarted := false;
      animeSelected := false;
      questionIndex := 0;
      score := 0;
      currentCharacter := None;
      selectedAnime := None;
      filteredData := data;
      options := None;
      usedCharacters := [];
    }

    /** quiz.py:121-122: the final score, out of five. */
    method FinalScore() returns (points: nat, outOf: nat)
      requires Valid() && Over(Snapshot())
      ensures outOf == Questions && points == score && points <= outOf
    {
      GameOver(data, Snapshot());
      return score, Questions;
    }
  }
}
