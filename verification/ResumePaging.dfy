/**
 Recovery of the transition log page by page: the validation of the log, the page after a resume
 token, and what a client that follows the tokens receives.
 */
module ResumePaging {
  import opened Common
  import opened CommandQueue
  import opened TransitionEngine

  datatype Fault = StateInvalid | QueryInvalid | TokenInvalid | TokenAhead

  datatype Page = Page(events: seq<TransitionEvent>, next: nat, snapshotRequired: bool)

  predicate Rising(events: seq<TransitionEvent>) {
    forall i, j | 0 <= i < j < |events| :: events[i].cursor < events[j].cursor
  }

  predicate Within(events: seq<TransitionEvent>, cursor: nat) {
    forall i | 0 <= i < |events| :: 1 <= events[i].cursor <= cursor && Token(events[i].commandId)
  }

  /** A log that may be served: bounded, rising, and ending at the state it is the log of. */
  predicate ValidLog(a: Authority) {
    && |a.events| <= 1024 && a.cursor <= 1_000_000
    && Rising(a.events) && Within(a.events, a.cursor)
    && (if a.cursor == 0 then a.events == [] && a.status == CREATED
        else a.events != [] && a.events[|a.events| - 1].cursor == a.cursor)
    && (a.events != [] ==> a.events[|a.events| - 1].to == a.status)
    && a.terminal == Terminal(a.status)
  }

  method ValidateTransitions(a: Authority) returns (validated: Result<seq<TransitionEvent>, Fault>)
    ensures validated == if ValidLog(a) then Ok(a.events) else Err(StateInvalid)
    ensures validated.Ok? <==>
      && |a.events| <= 1024 && a.cursor <= 1_000_000
      && (forall i, j | 0 <= i < j < |a.events| :: a.events[i].cursor < a.events[j].cursor)
      && (forall i | 0 <= i < |a.events| :: 1 <= a.events[i].cursor <= a.cursor && Token(a.events[i].commandId))
      && (a.cursor == 0 ==> a.events == [] && a.status == CREATED)
      && (a.cursor > 0 ==> a.events != [] && a.events[|a.events| - 1].cursor == a.cursor)
      && (a.events != [] ==> a.events[|a.events| - 1].to == a.status)
      && (a.terminal <==> a.status in {COMPLETED, KILLED, FAILED, ROLLED_BACK, DENIED})
  {
    if |a.events| > 1024 || a.cursor > 1_000_000 {
      return Err(StateInvalid);
    }
    var previous: int := -1;
    var accepted: seq<TransitionEvent> := [];
    for i := 0 to |a.events|
      invariant accepted == a.events[..i]
      invariant previous == if i == 0 then -1 else a.events[i - 1].cursor
      invariant Rising(accepted) && Within(accepted, a.cursor)
    {
      var event := a.events[i];
      if event.cursor <= previous || event.cursor < 1 || event.cursor > a.cursor || !Token(event.commandId) {
        return Err(StateInvalid);
      }
      previous := event.cursor;
      accepted := accepted + [event];
    }
    assert accepted == a.events;
    if a.cursor == 0 {
      if accepted != [] || a.status != CREATED {
        return Err(StateInvalid);
      }
    } else if accepted == [] || accepted[|accepted| - 1].cursor != a.cursor {
      return Err(StateInvalid);
    }
    if accepted != [] && accepted[|accepted| - 1].to != a.status {
      return Err(StateInvalid);
    }
    if a.terminal != Terminal(a.status) {
      return Err(StateInvalid);
    }
    return Ok(accepted);
  }

  // ---------- one page ----------

  function After(events: seq<TransitionEvent>, c: nat): seq<TransitionEvent> {
    if events == [] then []
    else (if events[0].cursor > c then [events[0]] else []) + After(events[1..], c)
  }

  function Take<T>(s: seq<T>, n: nat): seq<T> {
    if |s| <= n then s else s[..n]
  }

  function PageAfter(a: Authority, c: nat, limit: nat): Page {
    var selected := Take(After(a.events, c), limit);
    Page(selected,
         if selected == [] then c else selected[|selected| - 1].cursor,
         a.cursor > c && (selected == [] || selected[0].cursor != c + 1))
  }

  /** `agui_events`, for a record and a signing key that are in order. */
  method AguiEvents(a: Authority, token: int, limit: int) returns (answer: Result<Page, Fault>)
    ensures answer ==
      if !(1 <= limit <= 100) then Err(QueryInvalid)
      else if token < 0 then Err(TokenInvalid)
      else if !ValidLog(a) then Err(StateInvalid)
      else if token > a.cursor then Err(TokenAhead)
      else Ok(PageAfter(a, token, limit))
    ensures answer.Ok? ==>
      var selected := answer.value.events;
      && 1 <= limit <= 100 && 0 <= token <= a.cursor && |selected| <= limit
      && (forall i | 0 <= i < |selected| :: selected[i] in a.events && selected[i].cursor > token)
      && (forall e | e in a.events && e.cursor > token :: e in selected || |selected| == limit)
      && answer.value.next == (if selected == [] then token else selected[|selected| - 1].cursor)
      && (answer.value.snapshotRequired <==> a.cursor > token && (selected == [] || selected[0].cursor != token + 1))
  {
    if limit < 1 || limit > 100 {
      return Err(QueryInvalid);
    }
    if token < 0 {
      return Err(TokenInvalid);
    }
    var validated := ValidateTransitions(a);
    if validated.Err? {
      return Err(StateInvalid);
    }
    if token > a.cursor {
      return Err(TokenAhead);
    }
    var selected := Take(After(validated.value, token), limit);
    ghost var n := AfterIsSuffix(a.events, token);
    var next: nat := if selected == [] then token else selected[|selected| - 1].cursor;
    var required := a.cursor > token && (selected == [] || selected[0].cursor != token + 1);
    return Ok(Page(selected, next, required));
  }

  // ---------- what is selected ----------

  /** Where the cursors pass c, the selection starts. */
  lemma {:induction false} AfterFrom(events: seq<TransitionEvent>, c: nat, k: nat)
    requires k <= |events|
    requires forall i | 0 <= i < k :: events[i].cursor <= c
    requires forall i | k <= i < |events| :: events[i].cursor > c
    ensures After(events, c) == events[k..]
  {
    if events == [] {
    } else if k == 0 {
      AfterFrom(events[1..], c, 0);
      assert [events[0]] + events[1..] == events[0..];
    } else {
      AfterFrom(events[1..], c, k - 1);
      assert events[1..][k - 1..] == events[k..];
    }
  }

  /** In a rising log the events after c are a suffix of it. */
  lemma {:induction false} AfterIsSuffix(events: seq<TransitionEvent>, c: nat) returns (n: nat)
    requires Rising(events)
    ensures n <= |events| && After(events, c) == events[n..]
    ensures forall i | 0 <= i < n :: events[i].cursor <= c
    ensures forall i | n <= i < |events| :: events[i].cursor > c
  {
    n := 0;
    while n < |events| && events[n].cursor <= c
      invariant n <= |events| && forall i | 0 <= i < n :: events[i].cursor <= c
    {
      n := n + 1;
    }
    AfterFrom(events, c, n);
  }

  /** Selecting after the token of a page leaves what the page did not take. */
  lemma NextPageContinues(a: Authority, c: nat, limit: nat)
    requires Rising(a.events) && limit > 0
    ensures var all := After(a.events, c); var page := PageAfter(a, c, limit);
      && After(a.events, page.next) == all[|page.events|..]
      && (all != [] ==> page.events != [] && page.next > c)
      && (all == [] ==> page.events == [] && page.next == c)
  {
    var n := AfterIsSuffix(a.events, c);
    var all := After(a.events, c);
    var page := PageAfter(a, c, limit);
    if all != [] {
      var last := n + |page.events| - 1;
      assert a.events[last] == page.events[|page.events| - 1];
      AfterFrom(a.events, page.next, last + 1);
      assert a.events[last + 1..] == all[|page.events|..];
    }
  }

  // ---------- following the tokens ----------

  /** The non-empty pages a client receives that starts at c and follows the tokens. */
  function Pages(a: Authority, c: nat, limit: nat): (pages: seq<Page>)
    requires Rising(a.events) && limit > 0
    decreases |After(a.events, c)|
  {
    var page := PageAfter(a, c, limit);
    if page.events == [] then []
    else
      NextPageContinues(a, c, limit);
      [page] + Pages(a, page.next, limit)
  }

  function Contents(pages: seq<Page>): seq<TransitionEvent> {
    if pages == [] then [] else pages[0].events + Contents(pages[1..])
  }

  /** n / limit, rounded up. */
  function Ceiling(n: nat, limit: nat): (r: nat)
    requires limit > 0
    ensures n <= r * limit && (n > 0 ==> (r - 1) * limit < n) && (n == 0 ==> r == 0)
  {
    if n == 0 then 0
    else if n <= limit then 1
    else
      var r := Ceiling(n - limit, limit);
      assert (r + 1) * limit == r * limit + limit && (r - 1) * limit == r * limit - limit;
      r + 1
  }

  /** The pages hold exactly the events after c, once each and in order, in as few pages as the limit
      allows, all but the last one full. */
  lemma {:induction false} PagesDeliver(a: Authority, c: nat, limit: nat)
    requires Rising(a.events) && limit > 0
    ensures var pages := Pages(a, c, limit);
      && Contents(pages) == After(a.events, c)
      && |pages| == Ceiling(|After(a.events, c)|, limit)
      && (forall i | 0 <= i < |pages| - 1 :: |pages[i].events| == limit)
      && (forall i | 0 <= i < |pages| :: 0 < |pages[i].events| <= limit)
    decreases |After(a.events, c)|
  {
    var page := PageAfter(a, c, limit);
    var all := After(a.events, c);
    NextPageContinues(a, c, limit);
    if all != [] {
      PagesDeliver(a, page.next, limit);
      var rest := Pages(a, page.next, limit);
      assert Pages(a, c, limit) == [page] + rest;
      JoinPages(page, rest, all);
      FullButLast(page, rest, |all|, limit);
    }
  }

  lemma JoinPages(page: Page, rest: seq<Page>, all: seq<TransitionEvent>)
    requires |page.events| <= |all| && page.events == all[..|page.events|]
    requires Contents(rest) == all[|page.events|..]
    ensures Contents([page] + rest) == all
  {
    assert ([page] + rest)[1..] == rest;
  }

  lemma FullButLast(page: Page, rest: seq<Page>, n: nat, limit: nat)
    requires limit > 0 && 0 < |page.events| <= n && |page.events| == (if n <= limit then n else limit)
    requires |rest| == Ceiling(n - |page.events|, limit)
    requires forall i | 0 <= i < |rest| - 1 :: |rest[i].events| == limit
    requires forall i | 0 <= i < |rest| :: 0 < |rest[i].events| <= limit
    ensures var pages := [page] + rest;
      && |pages| == Ceiling(n, limit)
      && (forall i | 0 <= i < |pages| - 1 :: |pages[i].events| == limit)
      && (forall i | 0 <= i < |pages| :: 0 < |pages[i].events| <= limit)
  {
  }

  /** The last page of a valid log leads to the recovery cursor, after which there is nothing more. */
  lemma {:induction false} PagesEndAtCursor(a: Authority, c: nat, limit: nat)
    requires ValidLog(a) && limit > 0 && c < a.cursor
    ensures var pages := Pages(a, c, limit);
      && pages != [] && pages[|pages| - 1].next == a.cursor
      && Pages(a, a.cursor, limit) == []
    decreases |After(a.events, c)|
  {
    var n := AfterIsSuffix(a.events, c);
    var top := a.events[|a.events| - 1];
    assert After(a.events, c) != [];
    var end := AfterIsSuffix(a.events, a.cursor);
    assert After(a.events, a.cursor) == [];
    NextPageContinues(a, c, limit);
    var page := PageAfter(a, c, limit);
    var k := page.events[|page.events| - 1];
    assert k == a.events[n + |page.events| - 1];
    if page.next < a.cursor {
      PagesEndAtCursor(a, page.next, limit);
      assert Pages(a, c, limit) == [page] + Pages(a, page.next, limit);
    } else {
      assert Pages(a, c, limit) == [page] + [];
    }
  }

  // ---------- the snapshot flag ----------

  /** The last transitions of the state, with none missing in between. */
  predicate Contiguous(a: Authority) {
    |a.events| <= a.cursor && forall i | 0 <= i < |a.events| :: a.events[i].cursor == a.cursor - |a.events| + i + 1
  }

  predicate Holds(events: seq<TransitionEvent>, cursor: nat) {
    exists i :: 0 <= i < |events| && events[i].cursor == cursor
  }

  lemma FlagIffBeforeLog(a: Authority, c: nat, limit: nat)
    requires Contiguous(a) && limit > 0
    ensures PageAfter(a, c, limit).snapshotRequired <==> c < a.cursor - |a.events|
  {
    var first := a.cursor - |a.events|;
    AfterFrom(a.events, c, if c <= first then 0 else if c <= a.cursor then c - first else |a.events|);
  }

  lemma MissingIffBeforeLog(a: Authority, c: nat)
    requires Contiguous(a)
    ensures (exists k: nat :: c < k <= a.cursor && !Holds(a.events, k)) <==> c < a.cursor - |a.events|
  {
    var first := a.cursor - |a.events|;
    if c < first {
      assert !Holds(a.events, first);
    }
    forall k: nat | c < k <= a.cursor && first < k
      ensures Holds(a.events, k)
    {
      assert a.events[k - first - 1].cursor == k;
    }
  }

  /** A snapshot is asked for exactly when a transition after the token is missing from the log. */
  lemma SnapshotIffMissing(a: Authority, c: nat, limit: nat)
    requires Contiguous(a) && limit > 0
    ensures PageAfter(a, c, limit).snapshotRequired
      <==> exists k: nat :: c < k <= a.cursor && !Holds(a.events, k)
  {
    FlagIffBeforeLog(a, c, limit);
    MissingIffBeforeLog(a, c);
  }
}
