/** The `useProjectAutocomplete` hook: the text each suggestion is shown
    with, and the state its search effect leaves behind. */
module ProjectAutocomplete {
  import opened Wrappers
  import opened Text
  import opened Paging
  import opened Tables
  import opened Outcomes
  import ProjectsRoute

  const MaxShown: nat := 100
  const Ellipsis := "..."
  const MaxWords: nat := 5
  const SearchFailure := "Error al buscar proyectos. Por favor, intenta nuevamente."

  /** `name.split(" ")[0]`. */
  function FirstWord(name: string): string {
    Split(name, ' ')[0]
  }

  /** The options whose name starts with the same first word. */
  function SharingFirstWord(names: seq<string>, word: string): (r: seq<string>)
    ensures forall n :: n in r <==> n in names && FirstWord(n) == word
  {
    Filter(names, (n: string) => FirstWord(n) == word)
  }

  /** At most 100 characters, followed by "..." when something was cut. */
  function Shorten(t: string): (r: string)
    ensures |t| <= MaxShown ==> r == t
    ensures |t| > MaxShown ==> r == t[..MaxShown] + Ellipsis
  {
    if |t| > MaxShown then t[..MaxShown] + Ellipsis else t
  }

  /** `getDisplayText`: the name, cut to its first five words when another
      option starts with the same word, and cut at 100 characters. Always a
      prefix of the name, possibly followed by "...", and never longer than
      103 characters. */
  function DisplayText(name: string, names: seq<string>): (r: string)
    ensures r <= name || (|r| >= |Ellipsis| && r[..|r| - |Ellipsis|] <= name && r[|r| - |Ellipsis|..] == Ellipsis)
    ensures |r| <= MaxShown + |Ellipsis|
  {
    var t := if |SharingFirstWord(names, FirstWord(name))| > 1 then
               var words := Split(name, ' ');
               JoinPrefix(words, Min(MaxWords, |words|), ' ');
               JoinSplit(name, ' ');
               Join(words[..Min(MaxWords, |words|)], ' ')
             else name;
    assert t <= name;
    var r := Shorten(t);
    assert |t| > MaxShown ==> r[..|r| - |Ellipsis|] == t[..MaxShown] && r[|r| - |Ellipsis|..] == Ellipsis;
    r
  }

  /** With another option sharing the first word, the text holds at most five
      words: no more than four spaces. */
  lemma DisplayTextHasAtMostFiveWords(name: string, names: seq<string>)
    requires |SharingFirstWord(names, FirstWord(name))| > 1
    ensures Count(DisplayText(name, names), ' ') <= MaxWords - 1
  {
    var words := Split(name, ' ');
    var k := Min(MaxWords, |words|);
    var t := Join(words[..k], ' ');
    CountJoin(words[..k], ' ');
    if |t| > MaxShown {
      CountPrefix(t[..MaxShown], t, ' ');
      CountAppend(t[..MaxShown], Ellipsis, ' ');
      CountAbsent(Ellipsis, ' ');
    }
  }

  /** With another option sharing the first word, the text is the name's
      first five words (all of them when there are fewer), joined by single
      spaces, and cut at 100 characters with "..." when longer. */
  lemma SharedNameShowsFirstWords(name: string, names: seq<string>)
    requires |SharingFirstWord(names, FirstWord(name))| > 1
    ensures var words := Split(name, ' ');
      var t := Join(words[..Min(MaxWords, |words|)], ' ');
      && (|t| <= MaxShown ==> DisplayText(name, names) == t)
      && (|t| > MaxShown ==> DisplayText(name, names) == t[..MaxShown] + Ellipsis)
  {
  }

  /** A name of at most five words and 100 characters is shown as it is,
      even when another option shares its first word. */
  lemma ShortFewWordNameUnchanged(name: string, names: seq<string>)
    requires |name| <= MaxShown && |Split(name, ' ')| <= MaxWords
    ensures DisplayText(name, names) == name
  {
    var words := Split(name, ' ');
    assert words[..Min(MaxWords, |words|)] == words;
    JoinSplit(name, ' ');
    if |SharingFirstWord(names, FirstWord(name))| > 1 {
      SharedNameShowsFirstWords(name, names);
    }
  }

  /** A name of at most 100 characters whose first word no other option
      shares is shown as it is. */
  lemma ShortUniqueNameUnchanged(name: string, names: seq<string>)
    requires |name| <= MaxShown && |SharingFirstWord(names, FirstWord(name))| <= 1
    ensures DisplayText(name, names) == name
  {
  }

  /** The search state of the hook. */
  class AutocompleteState {
    var options: seq<ProjectsRoute.ProjectOption>
    var loading: bool
    var error: Option<string>

    constructor()
      ensures options == [] && !loading && error.None?
    {
      options := [];
      loading := false;
      error := None;
    }

    /** The search effect for `query`, once its debounced search (if any) has
        settled: a blank query empties the options and clears the error
        without searching; otherwise the query is searched, and a failure
        shows the fixed message with no options. Returns the text searched. */
    method QueryChanged(query: string, outcome: Outcome<seq<ProjectsRoute.ProjectOption>>)
      returns (searched: Option<string>)
      modifies this
      ensures IsBlank(query) ==> searched.None? && options == [] && error.None? && loading == old(loading)
      ensures !IsBlank(query) ==> searched == Some(query) && !loading
      ensures !IsBlank(query) && outcome.Ok? ==> options == outcome.value && error.None?
      ensures !IsBlank(query) && outcome.Err? ==> options == [] && error == Some(SearchFailure)
    {
      if IsBlank(query) {
        options := [];
        error := None;
        return None;
      }
      loading := true;
      error := None;
      searched := Some(query);
      if outcome.Ok? {
        options := outcome.value;
      } else {
        error := Some(SearchFailure);
        options := [];
      }
      loading := false;
    }
  }
}
