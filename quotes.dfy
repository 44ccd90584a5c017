/**
  The quote cooldown of tasks.py: pick a quote whose index is not among the
  recently shown ones, then remember the pick in the state file, keeping the
  last ten. The file reads and writes become values: the quotes file is
  fixed, the state file is a field the selection rewrites.
 */
module Quotes {
  import opened Wrappers

  /** How many recently shown indices the state file keeps. */
  const HistoryLimit := 10

  const EmptyFileText := "Quote file is empty."
  const NoQuoteText := "Could not retrieve a quote."

  /** One entry of quotes.json; `author` is `None` when the key is missing. */
  datatype Quote = Quote(text: string, author: Option<string>)

  /** quotes.json: missing, not valid JSON, or the list of quotes. */
  datatype QuotesFile = NoQuotesFile | UnparsableQuotes | QuoteList(quotes: seq<Quote>)

  /**
    state.json: missing, corrupt, or an object with an optional
    "recently_shown_indices" list and the other keys it holds.
   */
  datatype StateFile =
    | NoStateFile
    | CorruptStateFile
    | StateObject(recentlyShown: Option<seq<int>>, others: map<string, string>)

  /** What the selection returns: a text, or an exception that escapes it. */
  datatype QuoteResult = Text(text: string) | Raised

  /** `_read_state()` followed by `.get("recently_shown_indices", [])`. */
  function RecentlyShown(f: StateFile): (history: seq<int>)
    ensures f.NoStateFile? || f.CorruptStateFile? ==> history == []
    ensures f.StateObject? && f.recentlyShown.None? ==> history == []
    ensures f.StateObject? && f.recentlyShown.Some? ==> history == f.recentlyShown.value
  {
    match f
    case StateObject(Some(h), _) => h
    case _ => []
  }

  /** The state written back: the history replaced, every other key kept. */
  function Saved(f: StateFile, history: seq<int>): (g: StateFile)
    ensures RecentlyShown(g) == history
    ensures f.StateObject? ==> g.StateObject? && g.others == f.others
  {
    match f
    case StateObject(_, others) => StateObject(Some(history), others)
    case _ => StateObject(Some(history), map[])
  }

  /** The indices 0 .. n - 1. */
  function Range(n: nat): (r: set<int>)
    ensures forall i :: i in r <==> 0 <= i < n
  {
    if n == 0 then {} else Range(n - 1) + {n - 1}
  }

  function Elements(s: seq<int>): set<int> {
    set x | x in s
  }

  /**
    `available_indices`: the indices of the quotes minus the recently shown
    ones, or all indices again when that leaves none.
   */
  function Available(n: nat, history: seq<int>): (avail: set<int>)
    ensures forall i :: i in avail ==> 0 <= i < n
    ensures forall i :: 0 <= i < n && i !in history ==> i in avail
    ensures forall i :: i in avail && i in history ==> forall j :: 0 <= j < n ==> j in history
    ensures (forall j :: 0 <= j < n ==> j in history) ==> forall i :: 0 <= i < n ==> i in avail
    ensures n > 0 ==> avail != {}
  {
    var free := Range(n) - Elements(history);
    if free == {} then
      forall j | 0 <= j < n ensures j in history {
        assert j in Range(n);
        assert j !in free;
      }
      Range(n)
    else free
  }

  /** The last `k` elements of `s`, or all of `s` when it is shorter: Python's `s[-k:]` for k >= 1. */
  function LastN(s: seq<int>, k: nat): (t: seq<int>)
    requires k >= 1
    ensures |t| == if |s| <= k then |s| else k
    ensures forall i :: 0 <= i < |t| ==> t[i] == s[|s| - |t| + i]
  {
    if |s| <= k then s else s[|s| - k..]
  }

  /** `recently_shown.append(chosen)` followed by `recently_shown[-10:]`. */
  function UpdatedHistory(history: seq<int>, chosen: int): (h: seq<int>)
    ensures 1 <= |h| <= HistoryLimit
    ensures |h| == if |history| < HistoryLimit then |history| + 1 else HistoryLimit
    ensures h[|h| - 1] == chosen
    ensures forall i :: 0 <= i < |h| - 1 ==> h[i] == history[|history| - (|h| - 1) + i]
  {
    LastN(history + [chosen], HistoryLimit)
  }

  /** The quote as the notification shows it: `"text" - author`, author 'Unknown' when absent. */
  function FormatQuote(q: Quote): (s: string)
    ensures |s| == |q.text| + 5 + |AuthorOf(q)|
    ensures s[..|q.text| + 2] == "\"" + q.text + "\""
    ensures s[|q.text| + 2..|q.text| + 5] == " - "
    ensures s[|s| - |AuthorOf(q)|..] == AuthorOf(q)
  {
    "\"" + q.text + "\" - " + AuthorOf(q)
  }

  /** `quote.get("author", "Unknown")`. */
  function AuthorOf(q: Quote): string {
    match q.author
    case Some(a) => a
    case None => "Unknown"
  }

  /**
    One call of `get_random_quote_with_cooldown`, as a relation between the
    state file before and after and the result. The random choice is any
    index of `Available`.
   */
  ghost predicate CooldownStep(quotesFile: QuotesFile, before: StateFile, after: StateFile, r: QuoteResult) {
    match quotesFile
    case NoQuotesFile => r == Text(NoQuoteText) && after == before
    case UnparsableQuotes => r == Raised && after == before
    case QuoteList(quotes) =>
      if |quotes| == 0 then r == Text(EmptyFileText) && after == before
      else
        var history := RecentlyShown(before);
        exists c | c in Available(|quotes|, history) ::
          after == Saved(before, UpdatedHistory(history, c)) && r == Text(FormatQuote(quotes[c]))
  }

  /** The two files the selection works on. */
  class QuoteFiles {
    const quotesFile: QuotesFile
    var stateFile: StateFile

    constructor (quotesFile: QuotesFile, stateFile: StateFile)
      ensures this.quotesFile == quotesFile && this.stateFile == stateFile
    {
      this.quotesFile := quotesFile;
      this.stateFile := stateFile;
    }

    /**
      `get_random_quote_with_cooldown`. A missing quotes file gives the
      fallback text, an unparsable one raises (its JSONDecodeError is not
      caught), an empty list gives 'Quote file is empty.'; in all three the
      state file is left alone.
     */
    method GetRandomQuoteWithCooldown() returns (r: QuoteResult)
      modifies this
      ensures CooldownStep(quotesFile, old(stateFile), stateFile, r)
    {
      match quotesFile
      case NoQuotesFile =>
        r := Text(NoQuoteText);
      case UnparsableQuotes =>
        r := Raised;
      case QuoteList(quotes) =>
        if |quotes| == 0 {
          r := Text(EmptyFileText);
          return;
        }
        var recentlyShown := RecentlyShown(stateFile);
        var available := Available(|quotes|, recentlyShown);
        var chosen :| chosen in available;
        var quote := quotes[chosen];
        var updatedHistory := UpdatedHistory(recentlyShown, chosen);
        stateFile := Saved(stateFile, updatedHistory);
        r := Text(FormatQuote(quote));
    }
  }

  /** With three quotes and indices 0 and 1 recently shown, index 2 is the only choice. */
  lemma OnlyUnshownIndexLeft()
    ensures Available(3, [0, 1]) == {2}
  {
    var avail := Available(3, [0, 1]);
    assert 2 in avail;
    forall i | i in avail ensures i == 2 {
      assert 2 !in [0, 1];
    }
  }

  // ---------------------------------------------------------------------------
  // Several selections in a row.

  /** The history after a run of choices, starting from `history`. */
  function Replay(history: seq<int>, choices: seq<int>): seq<int>
    decreases |choices|
  {
    if choices == [] then history
    else UpdatedHistory(Replay(history, choices[..|choices| - 1]), choices[|choices| - 1])
  }

  /** Every choice of the run was one the cooldown allowed at its turn. */
  ghost predicate AllowedRun(n: nat, history: seq<int>, choices: seq<int>) {
    forall k :: 0 <= k < |choices| ==> choices[k] in Available(n, Replay(history, choices[..k]))
  }

  lemma {:induction false} LastNAppend(s: seq<int>, c: int, k: nat)
    requires k >= 1
    ensures LastN(LastN(s, k) + [c], k) == LastN(s + [c], k)
  {
    var a := LastN(LastN(s, k) + [c], k);
    var b := LastN(s + [c], k);
    assert |a| == |b|;
    forall i | 0 <= i < |a| ensures a[i] == b[i] {
      if i < |a| - 1 {
        assert a[i] == (LastN(s, k) + [c])[|LastN(s, k)| + 1 - |a| + i];
      }
    }
  }

  /** After a run, the history is the last ten of everything shown. */
  lemma {:induction false} ReplayIsWindow(history: seq<int>, choices: seq<int>)
    requires |history| <= HistoryLimit
    ensures Replay(history, choices) == LastN(history + choices, HistoryLimit)
    decreases |choices|
  {
    if choices != [] {
      var init := choices[..|choices| - 1];
      var c := choices[|choices| - 1];
      ReplayIsWindow(history, init);
      LastNAppend(history + init, c, HistoryLimit);
      SplitLast(history, choices);
    }
  }

  /** Appending a non-empty run is appending all but its last element, then that element. */
  lemma SplitLast(history: seq<int>, choices: seq<int>)
    requires choices != []
    ensures history + choices == (history + choices[..|choices| - 1]) + [choices[|choices| - 1]]
  {
    assert choices == choices[..|choices| - 1] + [choices[|choices| - 1]];
  }

  lemma {:induction false} ElementsCard(s: seq<int>)
    ensures |Elements(s)| <= |s|
    decreases |s|
  {
    if s != [] {
      var init := s[..|s| - 1];
      ElementsCard(init);
      assert Elements(s) == Elements(init) + {s[|s| - 1]};
    }
  }

  lemma {:induction false} RangeCard(n: nat)
    ensures |Range(n)| == n
  {
    if n > 0 {
      RangeCard(n - 1);
    }
  }

  /** Fewer remembered indices than quotes: some index is not remembered. */
  lemma SomeIndexNotShown(n: nat, history: seq<int>)
    requires |history| < n
    ensures exists i :: 0 <= i < n && i !in history
  {
    if forall i :: 0 <= i < n ==> i in history {
      assert Range(n) <= Elements(history);
      assert Elements(history) == Range(n) + (Elements(history) - Range(n));
      RangeCard(n);
      ElementsCard(history);
      assert false;
    }
  }

  /**
    The promise of the docstring: with more than ten quotes, a quote is not
    chosen again within ten selections of being shown.
   */
  lemma NoRepeatWithinWindow(n: nat, history: seq<int>, choices: seq<int>, i: int, j: int)
    requires n > HistoryLimit && |history| <= HistoryLimit
    requires AllowedRun(n, history, choices)
    requires 0 <= i < j < |choices| && j - i <= HistoryLimit
    ensures choices[i] != choices[j]
  {
    var before := choices[..j];
    var h := Replay(history, before);
    ReplayIsWindow(history, before);
    var all := history + before;
    assert h == LastN(all, HistoryLimit);
    // choices[i] sits in the last ten of what was shown before turn j
    assert all[|history| + i] == choices[i];
    var pos := |history| + i - (|all| - |h|);
    assert 0 <= pos < |h|;
    assert h[pos] == choices[i];
    // and turn j avoids every remembered index, since some index is free
    SomeIndexNotShown(n, h);
    assert choices[j] in Available(n, h);
  }
}
