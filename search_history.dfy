/** The recent-searches list kept in the browser's local storage: most recent
    first, at most ten entries, re-adding a query moves it to the front
    (compared ignoring case), removal is by exact text. */
module SearchHistory {
  import opened Wrappers
  import opened Seqs
  import opened JsText

  const MaxHistoryItems := 10

  predicate SameIgnoringCase(a: string, b: string) {
    ToLower(a) == ToLower(b)
  }

  function DiffersIgnoringCase(query: string): string -> bool {
    item => !SameIgnoringCase(item, query)
  }

  function DiffersFrom(query: string): string -> bool {
    item => item != query
  }

  /** The list `addToSearchHistory` stores: the query, then the earlier entries
      that differ from it ignoring case, cut to the first ten. */
  function WithQuery(history: seq<string>, query: string): seq<string> {
    var moved := [query] + Filter(history, DiffersIgnoringCase(query));
    if |moved| <= MaxHistoryItems then moved else moved[..MaxHistoryItems]
  }

  /** The list `removeFromSearchHistory` stores: the entries other than `query`. */
  function WithoutQuery(history: seq<string>, query: string): seq<string> {
    Filter(history, DiffersFrom(query))
  }

  /** After adding, the query is the first entry and there are at most ten. */
  lemma WithQueryFront(history: seq<string>, query: string)
    ensures |WithQuery(history, query)| >= 1 && WithQuery(history, query)[0] == query
    ensures |WithQuery(history, query)| <= MaxHistoryItems
  {
  }

  /** No entry after the first equals the query ignoring case. */
  lemma WithQueryNoDuplicate(history: seq<string>, query: string)
    ensures forall k :: 1 <= k < |WithQuery(history, query)| ==> !SameIgnoringCase(WithQuery(history, query)[k], query)
  {
    var f := Filter(history, DiffersIgnoringCase(query));
    assert forall k :: 0 <= k < |f| ==> DiffersIgnoringCase(query)(f[k]);
  }

  /** The other entries are earlier entries, in their earlier relative order. */
  lemma WithQueryKeepsOrder(history: seq<string>, query: string)
    ensures IsSubsequence(WithQuery(history, query)[1..], history)
  {
    var f := Filter(history, DiffersIgnoringCase(query));
    FilterIsSubsequence(history, DiffersIgnoringCase(query));
    var r := WithQuery(history, query);
    assert r[1..] == f[..|r| - 1];
    PrefixOfSubsequence(f, history, |r| - 1);
  }

  /** The entries kept after the query are the most recent ones that differ
      from it: the first `MaxHistoryItems - 1` of them, or all when fewer. */
  lemma WithQueryKeepsMostRecent(history: seq<string>, query: string)
    ensures var others := Filter(history, DiffersIgnoringCase(query));
      var kept := if |others| < MaxHistoryItems then |others| else MaxHistoryItems - 1;
      WithQuery(history, query)[1..] == others[..kept]
  {
  }

  /** When fewer than ten other entries remain, none of them is lost. */
  lemma WithQueryKeepsOthers(history: seq<string>, query: string, x: string)
    requires x in history && !SameIgnoringCase(x, query)
    requires |Filter(history, DiffersIgnoringCase(query))| < MaxHistoryItems
    ensures x in WithQuery(history, query)
  {
    FilterMembership(history, DiffersIgnoringCase(query), x);
  }

  /** Removal deletes exactly the entries equal to the query, case-sensitively,
      and keeps the rest in order. */
  lemma WithoutQueryExact(history: seq<string>, query: string)
    ensures forall x :: x in WithoutQuery(history, query) <==> x in history && x != query
    ensures |WithoutQuery(history, query)| + Count(history, query) == |history|
    ensures IsSubsequence(WithoutQuery(history, query), history)
  {
    forall x ensures x in WithoutQuery(history, query) <==> x in history && x != query {
      FilterMembership(history, DiffersFrom(query), x);
    }
    FilterOutCount(history, query);
    assert DiffersFrom(query) == (y => y != query);
    FilterIsSubsequence(history, DiffersFrom(query));
  }

  /** The storage slot of the history, and the functions over it. */
  class SearchHistoryStore {
    /** Whether a browser window exists; without one every operation does nothing. */
    const inBrowser: bool
    /** The stored list for the history key; None when the key is absent. */
    var stored: Option<seq<string>>

    constructor (inBrowser: bool, stored: Option<seq<string>>)
      ensures this.inBrowser == inBrowser && this.stored == stored
    {
      this.inBrowser := inBrowser;
      this.stored := stored;
    }

    /** `getSearchHistory`: the stored list, or [] when nothing is stored or there is no window. */
    function History(): (h: seq<string>)
      reads this
      ensures !inBrowser || stored.None? ==> h == []
      ensures inBrowser && stored.Some? ==> h == stored.value
    {
      if inBrowser && stored.Some? then stored.value else []
    }

    /** `addToSearchHistory`: a blank query changes nothing. */
    method Add(query: string)
      modifies this
      ensures !inBrowser || Trim(query) == "" ==> stored == old(stored)
      ensures inBrowser && Trim(query) != "" ==> stored == Some(WithQuery(old(History()), query))
      ensures inBrowser && Trim(query) != "" ==> History() != [] && History()[0] == query && |History()| <= MaxHistoryItems
    {
      if !inBrowser || Trim(query) == "" {
        return;
      }
      var history := History();
      var filtered := Filter(history, DiffersIgnoringCase(query));
      var newHistory := [query] + filtered;
      if |newHistory| > MaxHistoryItems {
        newHistory := newHistory[..MaxHistoryItems];
      }
      assert newHistory == WithQuery(history, query);
      WithQueryFront(history, query);
      stored := Some(newHistory);
    }

    /** `removeFromSearchHistory`. */
    method Remove(query: string)
      modifies this
      ensures !inBrowser ==> stored == old(stored)
      ensures inBrowser ==> stored == Some(WithoutQuery(old(History()), query))
    {
      if !inBrowser {
        return;
      }
      var history := History();
      stored := Some(Filter(history, DiffersFrom(query)));
    }

    /** `clearSearchHistory`: the key is removed, so the history reads as empty. */
    method Clear()
      modifies this
      ensures !inBrowser ==> stored == old(stored)
      ensures inBrowser ==> stored == None
      ensures History() == []
    {
      if !inBrowser {
        return;
      }
      stored := None;
    }
  }
}
