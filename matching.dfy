/**
 * Resolving the model's ordered title list against the candidate pool
 * (main.py, the loop over `selected_titles`): for each title, the first
 * remaining record with that title is taken and removed from a working copy
 * of the pool; titles with no remaining record are dropped.
 */
module Matching {
  import opened Summarizer

  /** The position of the first record titled `t` in `avail`, or `|avail|` when there is none. */
  function IndexOfTitle(avail: seq<SlideRecord>, t: string): (k: nat)
    ensures k <= |avail|
    ensures k < |avail| ==> avail[k].title == t
    ensures forall j :: 0 <= j < k ==> avail[j].title != t
  {
    if avail == [] then 0
    else if avail[0].title == t then 0
    else 1 + IndexOfTitle(avail[1..], t)
  }

  /** `avail` without its element at position `k` (`list.pop(k)`). */
  function RemoveAt(avail: seq<SlideRecord>, k: nat): seq<SlideRecord>
    requires k < |avail|
  {
    avail[..k] + avail[k + 1..]
  }

  /** The records chosen for `selected`, drawing from the records still in `avail`. */
  function Match(selected: seq<string>, avail: seq<SlideRecord>): seq<SlideRecord>
  {
    if selected == [] then []
    else
      var k := IndexOfTitle(avail, selected[0]);
      if k < |avail| then [avail[k]] + Match(selected[1..], RemoveAt(avail, k))
      else Match(selected[1..], avail)
  }

  /**
   * The nested loops of the source: `temp` is the working copy of the pool,
   * scanned front to back for each title; the first hit is appended to the
   * result and popped from `temp`. The pool itself is a value and is never
   * changed.
   */
  method MatchTitles(selected: seq<string>, pool: seq<SlideRecord>) returns (chosen: seq<SlideRecord>)
    ensures chosen == Match(selected, pool)
  {
    chosen := [];
    var temp := pool;
    for n := 0 to |selected|
      invariant chosen + Match(selected[n..], temp) == Match(selected, pool)
    {
      var title := selected[n];
      assert selected[n..][1..] == selected[n + 1..];
      var i := 0;
      while i < |temp| && temp[i].title != title
        invariant i <= |temp|
        invariant forall j :: 0 <= j < i ==> temp[j].title != title
      {
        i := i + 1;
      }
      if i < |temp| {
        chosen := chosen + [temp[i]];
        temp := temp[..i] + temp[i + 1..];
      }
    }
  }

  /** The titles of `rs`, in order. */
  function Titles(rs: seq<SlideRecord>): seq<string>
  {
    if rs == [] then [] else [rs[0].title] + Titles(rs[1..])
  }

  /** `a` is `b` with some elements left out (order kept). */
  predicate IsSubsequence(a: seq<string>, b: seq<string>)
  {
    if a == [] then true
    else if b == [] then false
    else if a[0] == b[0] then IsSubsequence(a[1..], b[1..])
    else IsSubsequence(a, b[1..])
  }

  /** The records of `rs` titled `t`, in order. */
  function WithTitle(rs: seq<SlideRecord>, t: string): seq<SlideRecord>
  {
    if rs == [] then [] else (if rs[0].title == t then [rs[0]] else []) + WithTitle(rs[1..], t)
  }

  /** How often `t` occurs in `ts`. */
  function Occurrences(ts: seq<string>, t: string): nat
  {
    if ts == [] then 0 else (if ts[0] == t then 1 else 0) + Occurrences(ts[1..], t)
  }

  function Min(a: nat, b: nat): nat
  {
    if a <= b then a else b
  }

  /** Removing one record keeps the others' multiset, and its own once fewer. */
  lemma RemoveAtMultiset(avail: seq<SlideRecord>, k: nat)
    requires k < |avail|
    ensures multiset(RemoveAt(avail, k)) + multiset{avail[k]} == multiset(avail)
  {
    assert avail == avail[..k] + [avail[k]] + avail[k + 1..];
  }

  /**
   * Each pool record is used at most once (the result is a sub-multiset of
   * the pool), and the result is no longer than either input.
   */
  lemma {:induction false} MatchUsesEachRecordOnce(selected: seq<string>, avail: seq<SlideRecord>)
    ensures multiset(Match(selected, avail)) <= multiset(avail)
    ensures |Match(selected, avail)| <= |selected| && |Match(selected, avail)| <= |avail|
  {
    if selected != [] {
      var k := IndexOfTitle(avail, selected[0]);
      if k < |avail| {
        MatchUsesEachRecordOnce(selected[1..], RemoveAt(avail, k));
        RemoveAtMultiset(avail, k);
      } else {
        MatchUsesEachRecordOnce(selected[1..], avail);
      }
    }
  }

  /**
   * The titles of `selected` from position `i` on that a pool `avail` can
   * serve: `selected[j]` is kept iff fewer copies of it were asked for
   * before `j` than `avail` holds.
   */
  function KeptFrom(selected: seq<string>, i: nat, avail: seq<SlideRecord>): seq<string>
    requires i <= |selected|
    decreases |selected| - i
  {
    if i == |selected| then []
    else
      (if Occurrences(selected[..i], selected[i]) < |WithTitle(avail, selected[i])| then [selected[i]] else [])
      + KeptFrom(selected, i + 1, avail)
  }

  /** The titles of `selected` that `avail` can serve, in selection order. */
  function Kept(selected: seq<string>, avail: seq<SlideRecord>): seq<string>
  {
    KeptFrom(selected, 0, avail)
  }

  /**
   * The result is in the order of `selected`: its titles are exactly
   * `selected` with the titles the pool has run out of left out, so each
   * record carries the title it was matched by.
   */
  lemma {:induction false} MatchFollowsSelection(selected: seq<string>, avail: seq<SlideRecord>)
    ensures Titles(Match(selected, avail)) == Kept(selected, avail)
    ensures IsSubsequence(Titles(Match(selected, avail)), selected)
  {
    assert selected[..0] == [] && selected[0..] == selected;
    MatchKeeps(selected, 0, avail, avail);
    MatchIsSubsequence(selected, avail);
  }

  /** Adding one title to a list counts it once more. */
  lemma {:induction false} OccurrencesAppend(ts: seq<string>, x: string, t: string)
    ensures Occurrences(ts + [x], t) == Occurrences(ts, t) + (if x == t then 1 else 0)
  {
    if ts != [] {
      assert (ts + [x])[1..] == ts[1..] + [x];
      OccurrencesAppend(ts[1..], x, t);
    }
  }

  /**
   * Matching the titles from `i` on against `cur`, the pool `avail` less the
   * records the titles before `i` took, gives the kept titles from `i` on.
   */
  lemma {:induction false} MatchKeeps(selected: seq<string>, i: nat, cur: seq<SlideRecord>, avail: seq<SlideRecord>)
    requires i <= |selected|
    requires forall t :: |WithTitle(cur, t)| ==
                         |WithTitle(avail, t)| - Min(Occurrences(selected[..i], t), |WithTitle(avail, t)|)
    ensures Titles(Match(selected[i..], cur)) == KeptFrom(selected, i, avail)
    decreases |selected| - i
  {
    if i < |selected| {
      var u := selected[i];
      var k := IndexOfTitle(cur, u);
      assert selected[i..][0] == u && selected[i..][1..] == selected[i + 1..];
      assert selected[..i + 1] == selected[..i] + [u];
      var after := KeptFrom(selected, i + 1, avail);
      if k < |cur| {
        var rest := RemoveAt(cur, k);
        forall t
          ensures |WithTitle(rest, t)| ==
                  |WithTitle(avail, t)| - Min(Occurrences(selected[..i + 1], t), |WithTitle(avail, t)|)
        {
          WithTitleRemoveFirst(cur, t, u);
          OccurrencesAppend(selected[..i], u, t);
        }
        WithTitleRemoveFirst(cur, u, u);
        MatchKeeps(selected, i + 1, rest, avail);
        var m := Match(selected[i + 1..], rest);
        assert Match(selected[i..], cur) == [cur[k]] + m;
        assert ([cur[k]] + m)[1..] == m;
        assert KeptFrom(selected, i, avail) == [u] + after;
      } else {
        WithTitleEmpty(cur, u);
        forall t
          ensures |WithTitle(cur, t)| ==
                  |WithTitle(avail, t)| - Min(Occurrences(selected[..i + 1], t), |WithTitle(avail, t)|)
        {
          OccurrencesAppend(selected[..i], u, t);
        }
        MatchKeeps(selected, i + 1, cur, avail);
        assert KeptFrom(selected, i, avail) == after;
      }
    }
  }

  /** The result's titles are `selected` with some titles left out. */
  lemma {:induction false} MatchIsSubsequence(selected: seq<string>, avail: seq<SlideRecord>)
    ensures IsSubsequence(Titles(Match(selected, avail)), selected)
  {
    if selected != [] {
      var k := IndexOfTitle(avail, selected[0]);
      if k < |avail| {
        MatchIsSubsequence(selected[1..], RemoveAt(avail, k));
      } else {
        MatchIsSubsequence(selected[1..], avail);
        SubsequenceOfTail(Titles(Match(selected[1..], avail)), selected);
      }
    }
  }

  /** A subsequence of the tail is a subsequence of the whole. */
  lemma {:induction false} SubsequenceOfTail(a: seq<string>, b: seq<string>)
    requires b != [] && IsSubsequence(a, b[1..])
    ensures IsSubsequence(a, b)
    decreases |b|, 0
  {
    if a != [] && a[0] == b[0] {
      SubsequenceDropHead(a, b[1..]);
    }
  }

  /** Dropping the first element of a subsequence keeps it a subsequence. */
  lemma {:induction false} SubsequenceDropHead(a: seq<string>, c: seq<string>)
    requires a != [] && IsSubsequence(a, c)
    ensures IsSubsequence(a[1..], c)
    decreases |c|, 1
  {
    if a[1..] != [] {
      if a[0] != c[0] {
        SubsequenceDropHead(a, c[1..]);
      }
      SubsequenceOfTail(a[1..], c);
    }
  }

  /** Records before the first one titled `t` keep their place; that one leaves `WithTitle`. */
  lemma {:induction false} WithTitleRemoveFirst(avail: seq<SlideRecord>, t: string, u: string)
    requires IndexOfTitle(avail, u) < |avail|
    ensures t == u ==> WithTitle(avail, t) != []
                       && WithTitle(RemoveAt(avail, IndexOfTitle(avail, u)), t) == WithTitle(avail, t)[1..]
    ensures t != u ==> WithTitle(RemoveAt(avail, IndexOfTitle(avail, u)), t) == WithTitle(avail, t)
  {
    var k := IndexOfTitle(avail, u);
    if k > 0 {
      assert avail[1..][..k - 1] + avail[1..][k..] == RemoveAt(avail, k)[1..];
      WithTitleRemoveFirst(avail[1..], t, u);
    } else {
      assert RemoveAt(avail, k) == avail[1..];
    }
  }

  /** With no record titled `t` left, `WithTitle` is empty. */
  lemma {:induction false} WithTitleEmpty(avail: seq<SlideRecord>, t: string)
    requires IndexOfTitle(avail, t) == |avail|
    ensures WithTitle(avail, t) == []
  {
    if avail != [] {
      WithTitleEmpty(avail[1..], t);
    }
  }

  /**
   * First match wins: the records chosen with title `t` are the first
   * `min(#t in selected, #t in pool)` records titled `t` in the pool, in
   * pool order. So an earlier remaining record is always chosen before a
   * later one, a title matches as often as the pool has copies of it, and a
   * title with no record left is dropped.
   */
  lemma {:induction false} MatchTakesEarliest(selected: seq<string>, avail: seq<SlideRecord>, t: string)
    ensures var available := WithTitle(avail, t);
            WithTitle(Match(selected, avail), t) == available[..Min(Occurrences(selected, t), |available|)]
  {
    if selected != [] {
      var u := selected[0];
      var k := IndexOfTitle(avail, u);
      if k < |avail| {
        var rest := RemoveAt(avail, k);
        var m := Match(selected[1..], rest);
        MatchTakesEarliest(selected[1..], rest, t);
        WithTitleRemoveFirst(avail, t, u);
        assert ([avail[k]] + m)[1..] == m;
        assert WithTitle(Match(selected, avail), t) == (if u == t then [avail[k]] else []) + WithTitle(m, t);
        if u == t {
          WithTitleHead(avail, u);
          TakeFromHead(WithTitle(avail, t), Occurrences(selected[1..], t));
        }
      } else {
        MatchTakesEarliest(selected[1..], avail, t);
        if u == t {
          WithTitleEmpty(avail, t);
        }
      }
    }
  }

  /** Taking one more from a non-empty sequence keeps its head in front. */
  lemma TakeFromHead(w: seq<SlideRecord>, o: nat)
    requires w != []
    ensures [w[0]] + w[1..][..Min(o, |w| - 1)] == w[..Min(o + 1, |w|)]
  {
    assert w[..Min(o + 1, |w|)] == [w[0]] + w[1..Min(o + 1, |w|)];
  }

  /** The first record titled `u` heads `WithTitle(avail, u)`. */
  lemma {:induction false} WithTitleHead(avail: seq<SlideRecord>, u: string)
    requires IndexOfTitle(avail, u) < |avail|
    ensures WithTitle(avail, u) != [] && WithTitle(avail, u)[0] == avail[IndexOfTitle(avail, u)]
  {
    if avail[0].title != u {
      WithTitleHead(avail[1..], u);
    }
  }
}
