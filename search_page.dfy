/**
 * The search form of the client: two text fields, a click on a suggested stop
 * or on a recent search to fill them, and a search that records the trimmed
 * pair at the head of a short most-recent-first history.
 */
module SearchPage {
  import opened Wrappers

  datatype RecentSearch = RecentSearch(from: string, to: string, timestamp: string)

  /** Which of the two fields a stop click fills. */
  datatype Field = From | To

  /** The query a search navigates with: the fields as typed, not trimmed. */
  datatype Query = Query(from: string, to: string)

  /** The number of earlier searches kept behind a new one. */
  const KeptSearches: nat := 4

  /** White space and line terminators as `String.prototype.trim` removes them. */
  predicate IsSpace(c: char)
  {
    var n := c as int;
    || n == 0x09 || n == 0x0A || n == 0x0B || n == 0x0C || n == 0x0D || n == 0x20
    || n == 0xA0 || n == 0x1680 || 0x2000 <= n <= 0x200A || n == 0x2028 || n == 0x2029
    || n == 0x202F || n == 0x205F || n == 0x3000 || n == 0xFEFF
  }

  predicate AllSpace(s: string)
  {
    forall i :: 0 <= i < |s| ==> IsSpace(s[i])
  }

  /** `s` without its leading white space. */
  function TrimStart(s: string): (r: string)
    ensures |r| <= |s| && r == s[|s| - |r|..]
    ensures forall i :: 0 <= i < |s| - |r| ==> IsSpace(s[i])
    ensures r == [] || !IsSpace(r[0])
  {
    if s != [] && IsSpace(s[0]) then
      var r := TrimStart(s[1..]);
      assert forall i :: 1 <= i < |s| - |r| ==> s[i] == s[1..][i - 1];
      r
    else s
  }

  /** `s` without its trailing white space. */
  function TrimEnd(s: string): (r: string)
    ensures |r| <= |s| && r == s[..|r|]
    ensures forall i :: |r| <= i < |s| ==> IsSpace(s[i])
    ensures r == [] || !IsSpace(r[|r| - 1])
  {
    if s != [] && IsSpace(s[|s| - 1]) then TrimEnd(s[..|s| - 1]) else s
  }

  /** `String.prototype.trim`. */
  function Trim(s: string): string
  {
    TrimEnd(TrimStart(s))
  }

  /** A string trims to nothing exactly when it is all white space. */
  lemma TrimEmptyIff(s: string)
    ensures Trim(s) == "" <==> AllSpace(s)
  {
    if !AllSpace(s) {
      assert s[..|s|] == s;
    }
  }

  /** Trimming a trimmed string changes nothing. */
  lemma TrimIdempotent(s: string)
    ensures Trim(Trim(s)) == Trim(s)
  {
    var t := Trim(s);
    var u := TrimStart(s);
    if t != [] {
      assert t[0] == u[0];
      assert TrimStart(t) == t;
      assert TrimEnd(t) == t;
    }
  }

  /** The history after a search: the new entry, then at most four older ones in order. */
  function WithNewSearch(recent: seq<RecentSearch>, entry: RecentSearch): (r: seq<RecentSearch>)
    ensures |r| == 1 + (if |recent| < KeptSearches then |recent| else KeptSearches) && |r| <= 5
    ensures r[0] == entry
    ensures r[1..] == recent[..|r| - 1]
  {
    [entry] + recent[..if |recent| < KeptSearches then |recent| else KeptSearches]
  }

  /** An entry as a search records it: both ends trimmed and non-empty. */
  predicate Recorded(e: RecentSearch)
  {
    e.from == Trim(e.from) && e.from != "" && e.to == Trim(e.to) && e.to != ""
  }

  /**
   * A search over fields that trim to non-empty text records an entry of that
   * shape, so a history built only by searches holds only such entries.
   */
  lemma SearchKeepsHistoryRecorded(recent: seq<RecentSearch>, from: string, to: string, now: string)
    requires forall i :: 0 <= i < |recent| ==> Recorded(recent[i])
    requires Trim(from) != "" && Trim(to) != ""
    ensures var r := WithNewSearch(recent, RecentSearch(Trim(from), Trim(to), now));
      forall i :: 0 <= i < |r| ==> Recorded(r[i])
  {
    TrimIdempotent(from);
    TrimIdempotent(to);
    var r := WithNewSearch(recent, RecentSearch(Trim(from), Trim(to), now));
    forall i | 0 <= i < |r| ensures Recorded(r[i]) {
      if i > 0 {
        assert r[i] == r[1..][i - 1] == recent[i - 1];
      }
    }
  }

  /**
   * Picking a recorded entry and searching again puts an entry with the same
   * pair at the head of the history.
   */
  lemma ReSearchRecorded(recent: seq<RecentSearch>, e: RecentSearch, now: string)
    requires Recorded(e)
    ensures Trim(e.from) != "" && Trim(e.to) != ""
    ensures var r := WithNewSearch(recent, RecentSearch(Trim(e.from), Trim(e.to), now));
      r[0].from == e.from && r[0].to == e.to
  {
  }

  /** The page's state: the two fields and the history, set as the setters would. */
  class SearchForm {
    var from: string
    var to: string
    var recentSearches: seq<RecentSearch>

    constructor ()
      ensures from == "" && to == "" && recentSearches == []
    {
      from, to, recentSearches := "", "", [];
    }

    /**
     * A search: when both fields trim to non-empty text, record the trimmed
     * pair with the time `now` and navigate with the fields as typed;
     * otherwise do nothing.
     */
    method HandleSearch(now: string) returns (query: Option<Query>)
      modifies this
      ensures from == old(from) && to == old(to)
      ensures Trim(from) == "" || Trim(to) == "" ==>
        recentSearches == old(recentSearches) && query.None?
      ensures Trim(from) != "" && Trim(to) != "" ==>
        && recentSearches == WithNewSearch(old(recentSearches), RecentSearch(Trim(from), Trim(to), now))
        && query == Some(Query(from, to))
    {
      query := None;
      if Trim(from) != "" && Trim(to) != "" {
        var newSearch := RecentSearch(Trim(from), Trim(to), now);
        recentSearches := WithNewSearch(recentSearches, newSearch);
        query := Some(Query(from, to));
      }
    }

    /** A click on a recent search fills both fields from it. */
    method HandleRecentSearch(search: RecentSearch)
      modifies this
      ensures from == search.from && to == search.to
      ensures recentSearches == old(recentSearches)
    {
      from := search.from;
      to := search.to;
    }

    /** A click on a suggested stop fills the named field only. */
    method HandleStopClick(stop: string, field: Field)
      modifies this
      ensures field == From ==> from == stop && to == old(to)
      ensures field == To ==> to == stop && from == old(from)
      ensures recentSearches == old(recentSearches)
    {
      if field == From {
        from := stop;
      } else {
        to := stop;
      }
    }
  }
}
