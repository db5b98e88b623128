/**
 * Season set-up for the Super Cup: the pool selector (`select_players`), the seeding of one side of
 * a round-1 series (`initialize_series`) and the bracket builder (`create_season`).
 */
module CupPlay {
  import opened Outcomes
  import opened Sorting
  import opened Documents
  import opened Lists
  import opened CupModels
  import RoundCalculator

  /** `players.sort(key=rank)`: ascending rank. */
  const ByRank: (Player, Player) -> bool := (a: Player, b: Player) => a.rank <= b.rank

  lemma ByRankIsTotalPreorder()
    ensures TotalPreorder(ByRank)
  {
  }


  /** The members of group `g` among the first `n` players of `s`, in the order of `s`. */
  function MembersUpTo(s: seq<Player>, n: nat, g: string): (r: seq<Player>)
    requires n <= |s|
    ensures |r| <= n
    ensures forall k :: 0 <= k < |r| ==> r[k].groupName == g
  {
    if n == 0 then []
    else MembersUpTo(s, n - 1, g) + (if s[n - 1].groupName == g then [s[n - 1]] else [])
  }

  /** The players of `s` whose group is `g`, in the order of `s`. */
  function Members(s: seq<Player>, g: string): seq<Player>
  {
    MembersUpTo(s, |s|, g)
  }

  /**
   * The groups in the order in which they gather `ppg` members while the first `n` players of `s`
   * are scanned.
   */
  function CompletionsUpTo(s: seq<Player>, n: nat, ppg: nat): seq<string>
    requires n <= |s|
  {
    if n == 0 then []
    else
      var g := s[n - 1].groupName;
      CompletionsUpTo(s, n - 1, ppg) + (if |MembersUpTo(s, n, g)| == ppg then [g] else [])
  }

  function Take(s: seq<Player>, n: nat): (r: seq<Player>)
    ensures r <= s && |r| == if |s| <= n then |s| else n
  {
    if |s| <= n then s else s[..n]
  }

  /** The first `ppg` members of each group of `gs` in turn. */
  function Blocks(s: seq<Player>, gs: seq<string>, ppg: nat): seq<Player>
  {
    if |gs| == 0 then [] else Blocks(s, gs[..|gs| - 1], ppg) + Take(Members(s, gs[|gs| - 1]), ppg)
  }

  /** How many full groups the scan keeps before its length check stops it: at least one. */
  function Cap(groupCount: int): nat
  {
    if groupCount <= 1 then 1 else groupCount
  }

  function Min(a: nat, b: nat): nat
  {
    if a <= b then a else b
  }

  /** What `select_players` returns: the first `Cap` groups to fill up, each with its `ppg` best-ranked players. */
  function Selection(players: seq<Player>, groupCount: int, ppg: nat): seq<Player>
  {
    Picked(SortBy(players, ByRank), groupCount, ppg)
  }

  /** The selection from players already in scanning order. */
  function Picked(sorted: seq<Player>, groupCount: int, ppg: nat): seq<Player>
  {
    Blocks(sorted, Taken(sorted, groupCount, ppg), ppg)
  }

  /** The groups the selection keeps: the first `Cap(groupCount)` to gather `ppg` members. */
  function Taken(sorted: seq<Player>, groupCount: int, ppg: nat): seq<string>
  {
    var cs := CompletionsUpTo(sorted, |sorted|, ppg);
    cs[..Min(|cs|, Cap(groupCount))]
  }

  /** Member lists depend only on the players scanned. */
  lemma {:induction false} MembersFrame(s: seq<Player>, t: seq<Player>, n: nat, g: string)
    requires n <= |s| && n <= |t|
    requires forall k :: 0 <= k < n ==> s[k] == t[k]
    ensures MembersUpTo(s, n, g) == MembersUpTo(t, n, g)
  {
    if n > 0 {
      MembersFrame(s, t, n - 1, g);
    }
  }

  lemma {:induction false} MembersUpToAppend(a: seq<Player>, b: seq<Player>, k: nat, g: string)
    requires k <= |b|
    ensures MembersUpTo(a + b, |a| + k, g) == Members(a, g) + MembersUpTo(b, k, g)
  {
    if k == 0 {
      MembersFrame(a + b, a, |a|, g);
    } else {
      MembersUpToAppend(a, b, k - 1, g);
      assert (a + b)[|a| + k - 1] == b[k - 1];
    }
  }

  lemma MembersAppend(a: seq<Player>, b: seq<Player>, g: string)
    ensures Members(a + b, g) == Members(a, g) + Members(b, g)
  {
    MembersUpToAppend(a, b, |b|, g);
  }

  lemma {:induction false} MembersPrefix(s: seq<Player>, j: nat, n: nat, g: string)
    requires j <= n <= |s|
    ensures MembersUpTo(s, j, g) <= MembersUpTo(s, n, g)
  {
    if j < n {
      MembersPrefix(s, j, n - 1, g);
    }
  }

  /** Members of a list drawn from one group `h`. */
  lemma {:induction false} MembersOfOneGroup(x: seq<Player>, n: nat, h: string, g: string)
    requires n <= |x|
    requires forall k :: 0 <= k < |x| ==> x[k].groupName == h
    ensures MembersUpTo(x, n, g) == if h == g then x[..n] else []
  {
    if n > 0 {
      MembersOfOneGroup(x, n - 1, h, g);
      assert x[..n - 1] + [x[n - 1]] == x[..n];
    }
  }

  /** A group is listed as completed exactly when it has at least `ppg` members. */
  lemma {:induction false} CompletedIff(s: seq<Player>, n: nat, ppg: nat, g: string)
    requires ppg >= 1 && n <= |s|
    ensures g in CompletionsUpTo(s, n, ppg) <==> |MembersUpTo(s, n, g)| >= ppg
  {
    if n > 0 {
      CompletedIff(s, n - 1, ppg, g);
    }
  }

  lemma {:induction false} CompletionsDistinct(s: seq<Player>, n: nat, ppg: nat)
    requires ppg >= 1 && n <= |s|
    ensures Distinct(CompletionsUpTo(s, n, ppg))
  {
    if n > 0 {
      CompletionsDistinct(s, n - 1, ppg);
      CompletedIff(s, n - 1, ppg, s[n - 1].groupName);
    }
  }

  lemma {:induction false} CompletionsPrefix(s: seq<Player>, j: nat, n: nat, ppg: nat)
    requires j <= n <= |s|
    ensures CompletionsUpTo(s, j, ppg) <= CompletionsUpTo(s, n, ppg)
  {
    if j < n {
      CompletionsPrefix(s, j, n - 1, ppg);
    }
  }

  lemma DistinctSplit<T>(s: seq<T>)
    requires Distinct(s) && |s| > 0
    ensures Distinct(s[..|s| - 1]) && s[|s| - 1] !in s[..|s| - 1]
  {
    var init := s[..|s| - 1];
    forall i, j | 0 <= i < j < |init| ensures init[i] != init[j] {
      assert init[i] == s[i] && init[j] == s[j];
    }
    forall i | 0 <= i < |init| ensures init[i] != s[|s| - 1] {
      assert init[i] == s[i];
    }
  }

  /** The block of group `h` holds members of `h` only. */
  lemma BlockMembers(s: seq<Player>, h: string, ppg: nat, g: string)
    ensures Members(Take(Members(s, h), ppg), g) == if h == g then Take(Members(s, h), ppg) else []
  {
    var block := Take(Members(s, h), ppg);
    assert forall k :: 0 <= k < |block| ==> block[k] == Members(s, h)[k];
    MembersOfOneGroup(block, |block|, h, g);
    assert block[..|block|] == block;
  }

  /** Appending the block of a new group `h` to the blocks of `init`. */
  lemma BlocksMembersStep(s: seq<Player>, init: seq<string>, h: string, ppg: nat, g: string)
    requires h !in init
    requires Members(Blocks(s, init, ppg), g) == if g in init then Take(Members(s, g), ppg) else []
    ensures Members(Blocks(s, init + [h], ppg), g) == if g in init + [h] then Take(Members(s, g), ppg) else []
  {
    var gs := init + [h];
    var block := Take(Members(s, h), ppg);
    assert gs[..|gs| - 1] == init;
    MembersAppend(Blocks(s, init, ppg), block, g);
    BlockMembers(s, h, ppg, g);
    assert g in gs <==> g in init || g == h;
  }

  /** Each listed group contributes its first `ppg` members and no other group contributes. */
  lemma {:induction false} BlocksMembers(s: seq<Player>, gs: seq<string>, ppg: nat, g: string)
    requires Distinct(gs)
    ensures Members(Blocks(s, gs, ppg), g) == if g in gs then Take(Members(s, g), ppg) else []
  {
    if |gs| > 0 {
      var init, h := gs[..|gs| - 1], gs[|gs| - 1];
      DistinctSplit(gs);
      BlocksMembers(s, init, ppg, g);
      BlocksMembersStep(s, init, h, ppg, g);
      assert init + [h] == gs;
    }
  }

  lemma BlocksLength(s: seq<Player>, gs: seq<string>, ppg: nat)
    requires forall g :: g in gs ==> |Members(s, g)| >= ppg
    ensures |Blocks(s, gs, ppg)| == ppg * |gs|
  {
    BlocksTimes(s, gs, ppg);
    TimesIsProduct(|gs|, ppg);
  }

  lemma {:induction false} BlocksTimes(s: seq<Player>, gs: seq<string>, ppg: nat)
    requires forall g :: g in gs ==> |Members(s, g)| >= ppg
    ensures |Blocks(s, gs, ppg)| == Times(|gs|, ppg)
  {
    if |gs| > 0 {
      var init := gs[..|gs| - 1];
      assert forall g :: g in init ==> g in gs;
      BlocksTimes(s, init, ppg);
      assert gs[|gs| - 1] in gs;
    }
  }

  /** `k` groups of `ppg` players, counted one group at a time. */
  function Times(k: nat, ppg: nat): nat
  {
    if k == 0 then 0 else Times(k - 1, ppg) + ppg
  }

  lemma {:induction false} TimesIsProduct(k: nat, ppg: nat)
    ensures Times(k, ppg) == k * ppg
  {
    if k > 0 {
      TimesIsProduct(k - 1, ppg);
      assert k * ppg == (k - 1) * ppg + ppg;
    }
  }

  /** With positive group size, the selection length reaches the expected count exactly when enough groups are closed. */
  lemma ReachesExpected(k: nat, groupCount: int, ppg: nat)
    requires ppg >= 1
    ensures Times(k, ppg) >= groupCount * ppg <==> k >= groupCount
  {
    TimesIsProduct(k, ppg);
    if k >= groupCount {
      assert ppg * k == groupCount * ppg + (k - groupCount) * ppg;
      assert (k - groupCount) * ppg >= 0;
    } else {
      RoundCalculator.MulAtLeast(groupCount - k, ppg);
      assert groupCount * ppg == ppg * k + (groupCount - k) * ppg;
    }
  }

  function Nominated(nominated: map<string, seq<Player>>, g: string): seq<Player>
  {
    if g in nominated then nominated[g] else []
  }

  /** The state of the `select_players` scan after the first `i` players of `sorted`. */
  ghost predicate ScanState(sorted: seq<Player>, i: nat, ppg: nat, groupCount: int, cs: seq<string>,
                            selectedGroups: set<string>, nominated: map<string, seq<Player>>, selected: seq<Player>)
  {
    && i <= |sorted|
    && cs == CompletionsUpTo(sorted, i, ppg)
    && (forall k :: 0 <= k < |cs| ==> cs[k] in selectedGroups) && (forall g :: g in selectedGroups ==> g in cs)
    && selected == Blocks(sorted, cs, ppg)
    && |selected| == Times(|cs|, ppg)
    && |cs| < Cap(groupCount)
    && forall g :: g !in selectedGroups ==> Nominated(nominated, g) == MembersUpTo(sorted, i, g)
  }

  /** A player whose group is already selected is skipped. */
  lemma SkipStep(sorted: seq<Player>, i: nat, ppg: nat, groupCount: int, cs: seq<string>,
                 selectedGroups: set<string>, nominated: map<string, seq<Player>>, selected: seq<Player>)
    requires ppg >= 1 && i < |sorted| && sorted[i].groupName in selectedGroups
    requires ScanState(sorted, i, ppg, groupCount, cs, selectedGroups, nominated, selected)
    ensures ScanState(sorted, i + 1, ppg, groupCount, cs, selectedGroups, nominated, selected)
  {
    CompletedIff(sorted, i, ppg, sorted[i].groupName);
  }

  /** A player of an unselected group joins its group's nominees, which then are all its members scanned so far. */
  lemma NominateStep(sorted: seq<Player>, i: nat, ppg: nat, groupCount: int, cs: seq<string>,
                     selectedGroups: set<string>, nominated: map<string, seq<Player>>, selected: seq<Player>)
    requires ppg >= 1 && i < |sorted| && sorted[i].groupName !in selectedGroups
    requires ScanState(sorted, i, ppg, groupCount, cs, selectedGroups, nominated, selected)
    ensures var g := sorted[i].groupName;
      var nominated' := nominated[g := Nominated(nominated, g) + [sorted[i]]];
      && nominated'[g] == MembersUpTo(sorted, i + 1, g)
      && (|nominated'[g]| != ppg ==> ScanState(sorted, i + 1, ppg, groupCount, cs, selectedGroups, nominated', selected))
  {
    var g := sorted[i].groupName;
    var nominated' := nominated[g := Nominated(nominated, g) + [sorted[i]]];
    assert MembersUpTo(sorted, i + 1, g) == MembersUpTo(sorted, i, g) + [sorted[i]];
    forall h | h !in selectedGroups
      ensures Nominated(nominated', h) == MembersUpTo(sorted, i + 1, h)
    {
      if h != g {
        assert Nominated(nominated', h) == Nominated(nominated, h);
      }
    }
    if |nominated'[g]| != ppg {
      assert CompletionsUpTo(sorted, i + 1, ppg) == cs;
    }
  }

  /**
   * A group whose nominees reach `ppg` is closed and its nominees appended; the scan goes on exactly
   * while fewer than `groupCount` groups are closed, which never exceeds `Cap(groupCount)`.
   */
  lemma CloseStep(sorted: seq<Player>, i: nat, ppg: nat, groupCount: int, cs: seq<string>,
                  selectedGroups: set<string>, nominated: map<string, seq<Player>>, selected: seq<Player>)
    requires ppg >= 1 && i < |sorted|
    requires ScanState(sorted, i, ppg, groupCount, cs, selectedGroups, nominated, selected)
    requires |MembersUpTo(sorted, i + 1, sorted[i].groupName)| == ppg
    ensures var g := sorted[i].groupName;
      var cs' := cs + [g];
      var selected' := selected + MembersUpTo(sorted, i + 1, g);
      var nominated' := nominated[g := Nominated(nominated, g) + [sorted[i]]];
      && cs' == CompletionsUpTo(sorted, i + 1, ppg)
      && selected' == Blocks(sorted, cs', ppg)
      && (|selected'| >= groupCount * ppg <==> |cs'| >= groupCount)
      && (|cs'| >= groupCount ==> |cs'| == Cap(groupCount))
      && (|cs'| < groupCount ==>
            ScanState(sorted, i + 1, ppg, groupCount, cs', selectedGroups + {g}, nominated', selected'))
  {
    var g := sorted[i].groupName;
    ClosedBlock(sorted, i, ppg, cs);
    CloseCount(|cs|, groupCount, ppg);
    if |cs| + 1 < groupCount {
      ClosedState(sorted, i, ppg, groupCount, cs, selectedGroups, nominated, selected);
    }
  }

  /** After a group closes, the other groups' nominees are still their members scanned so far. */
  lemma ClosedState(sorted: seq<Player>, i: nat, ppg: nat, groupCount: int, cs: seq<string>,
                    selectedGroups: set<string>, nominated: map<string, seq<Player>>, selected: seq<Player>)
    requires ppg >= 1 && i < |sorted|
    requires ScanState(sorted, i, ppg, groupCount, cs, selectedGroups, nominated, selected)
    requires var g := sorted[i].groupName;
      && cs + [g] == CompletionsUpTo(sorted, i + 1, ppg)
      && selected + MembersUpTo(sorted, i + 1, g) == Blocks(sorted, cs + [g], ppg)
      && |selected + MembersUpTo(sorted, i + 1, g)| == Times(|cs| + 1, ppg)
      && |cs| + 1 < Cap(groupCount)
    ensures var g := sorted[i].groupName;
      ScanState(sorted, i + 1, ppg, groupCount, cs + [g], selectedGroups + {g},
                nominated[g := Nominated(nominated, g) + [sorted[i]]], selected + MembersUpTo(sorted, i + 1, g))
  {
    var g := sorted[i].groupName;
    var nominated' := nominated[g := Nominated(nominated, g) + [sorted[i]]];
    forall h | h !in selectedGroups + {g}
      ensures Nominated(nominated', h) == MembersUpTo(sorted, i + 1, h)
    {
      assert Nominated(nominated', h) == Nominated(nominated, h);
    }
  }

  /** One more closed group adds `ppg` players and stops the scan exactly when `groupCount` groups are closed. */
  lemma CloseCount(k: nat, groupCount: int, ppg: nat)
    requires ppg >= 1 && k < Cap(groupCount)
    ensures Times(k + 1, ppg) == Times(k, ppg) + ppg
    ensures Times(k + 1, ppg) >= groupCount * ppg <==> k + 1 >= groupCount
    ensures k + 1 >= groupCount ==> k + 1 == Cap(groupCount)
  {
    ReachesExpected(k + 1, groupCount, ppg);
  }

  /** Closing group `g` at position `i` lists it and appends all of its members scanned so far. */
  lemma ClosedBlock(sorted: seq<Player>, i: nat, ppg: nat, cs: seq<string>)
    requires i < |sorted| && cs == CompletionsUpTo(sorted, i, ppg)
    requires |MembersUpTo(sorted, i + 1, sorted[i].groupName)| == ppg
    ensures var g := sorted[i].groupName;
      && cs + [g] == CompletionsUpTo(sorted, i + 1, ppg)
      && Blocks(sorted, cs + [g], ppg) == Blocks(sorted, cs, ppg) + MembersUpTo(sorted, i + 1, g)
  {
    var g := sorted[i].groupName;
    MembersPrefix(sorted, i + 1, |sorted|, g);
    assert Take(Members(sorted, g), ppg) == MembersUpTo(sorted, i + 1, g);
    assert (cs + [g])[..|cs|] == cs;
  }

  /** Where the scan stops, the groups closed so far are the ones `Picked` keeps. */
  lemma StopStep(sorted: seq<Player>, i: nat, groupCount: int, ppg: nat, cs: seq<string>)
    requires i <= |sorted| && cs == CompletionsUpTo(sorted, i, ppg)
    requires |cs| == Cap(groupCount) || (i == |sorted| && |cs| < Cap(groupCount))
    ensures Picked(sorted, groupCount, ppg) == Blocks(sorted, cs, ppg)
  {
    CompletionsPrefix(sorted, i, |sorted|, ppg);
    var all := CompletionsUpTo(sorted, |sorted|, ppg);
    assert cs == all[..Min(|all|, Cap(groupCount))] == Taken(sorted, groupCount, ppg);
  }

  /** The variables of the `select_players` loop. */
  datatype ScanStatus = ScanStatus(selectedGroups: set<string>, nominated: map<string, seq<Player>>,
                                   selected: seq<Player>, stopped: bool)

  /** One iteration of the `select_players` loop on `player`; once stopped, nothing changes. */
  function ScanPlayer(st: ScanStatus, player: Player, groupCount: int, ppg: nat): ScanStatus
  {
    var g := player.groupName;
    if st.stopped || g in st.selectedGroups then st
    else
      var nominated := st.nominated[g := Nominated(st.nominated, g) + [player]];
      if |nominated[g]| != ppg then st.(nominated := nominated)
      else
        var selected := st.selected + nominated[g];
        ScanStatus(st.selectedGroups + {g}, nominated, selected, |selected| >= groupCount * ppg)
  }

  /** The loop variables after the first `n` players of `sorted`. */
  function ScanUpTo(sorted: seq<Player>, n: nat, groupCount: int, ppg: nat): ScanStatus
    requires n <= |sorted|
  {
    if n == 0 then ScanStatus({}, map[], [], false)
    else ScanPlayer(ScanUpTo(sorted, n - 1, groupCount, ppg), sorted[n - 1], groupCount, ppg)
  }

  /**
   * While the scan runs its variables satisfy `ScanState`; once it stops, the selection is the one
   * `Picked` describes.
   */
  lemma {:induction false} ScanUpToState(sorted: seq<Player>, n: nat, groupCount: int, ppg: nat)
    requires ppg >= 1 && n <= |sorted|
    ensures var st := ScanUpTo(sorted, n, groupCount, ppg);
      && (!st.stopped ==> ScanState(sorted, n, ppg, groupCount, CompletionsUpTo(sorted, n, ppg),
                                    st.selectedGroups, st.nominated, st.selected))
      && (st.stopped ==> st.selected == Picked(sorted, groupCount, ppg))
  {
    if n > 0 {
      var i := n - 1;
      ScanUpToState(sorted, i, groupCount, ppg);
      var st := ScanUpTo(sorted, i, groupCount, ppg);
      var cs := CompletionsUpTo(sorted, i, ppg);
      var g := sorted[i].groupName;
      if !st.stopped {
        if g in st.selectedGroups {
          SkipStep(sorted, i, ppg, groupCount, cs, st.selectedGroups, st.nominated, st.selected);
        } else {
          NominateStep(sorted, i, ppg, groupCount, cs, st.selectedGroups, st.nominated, st.selected);
          if |MembersUpTo(sorted, n, g)| == ppg {
            CloseStep(sorted, i, ppg, groupCount, cs, st.selectedGroups, st.nominated, st.selected);
            if |cs| + 1 >= groupCount {
              StopStep(sorted, n, groupCount, ppg, cs + [g]);
            }
          }
        }
      }
    }
  }

  /** After the last player the scan's selection is the one `Picked` describes. */
  lemma ScanPicks(sorted: seq<Player>, groupCount: int, ppg: nat)
    ensures ScanUpTo(sorted, |sorted|, groupCount, ppg).selected == Picked(sorted, groupCount, ppg)
  {
    if ppg == 0 {
      ScanWithoutQuota(sorted, |sorted|, groupCount);
    } else {
      ScanUpToState(sorted, |sorted|, groupCount, ppg);
      if !ScanUpTo(sorted, |sorted|, groupCount, ppg).stopped {
        StopStep(sorted, |sorted|, groupCount, ppg, CompletionsUpTo(sorted, |sorted|, ppg));
      }
    }
  }

  /** With a quota of zero no group ever closes: a nominee list is never empty. */
  lemma {:induction false} ScanWithoutQuota(sorted: seq<Player>, n: nat, groupCount: int)
    requires n <= |sorted|
    ensures ScanUpTo(sorted, n, groupCount, 0).selected == []
    ensures !ScanUpTo(sorted, n, groupCount, 0).stopped && ScanUpTo(sorted, n, groupCount, 0).selectedGroups == {}
    ensures CompletionsUpTo(sorted, n, 0) == []
  {
    if n > 0 {
      ScanWithoutQuota(sorted, n - 1, groupCount);
    }
  }

  /** Once stopped, the scan's variables no longer change. */
  lemma {:induction false} ScanFrozen(sorted: seq<Player>, i: nat, n: nat, groupCount: int, ppg: nat)
    requires i <= n <= |sorted| && ScanUpTo(sorted, i, groupCount, ppg).stopped
    ensures ScanUpTo(sorted, n, groupCount, ppg) == ScanUpTo(sorted, i, groupCount, ppg)
  {
    if i < n {
      ScanFrozen(sorted, i, n - 1, groupCount, ppg);
    }
  }

  /** `{player.group_name for player in s}`. */
  function GroupsOf(s: seq<Player>): set<string>
  {
    set k | 0 <= k < |s| :: s[k].groupName
  }

  lemma DistinctPrefix<T>(s: seq<T>, n: nat)
    requires Distinct(s) && n <= |s|
    ensures Distinct(s[..n])
  {
  }

  lemma {:induction false} MembersWitness(s: seq<Player>, n: nat, g: string)
    requires n <= |s| && |MembersUpTo(s, n, g)| > 0
    ensures exists j :: 0 <= j < n && s[j].groupName == g
  {
    if s[n - 1].groupName != g {
      MembersWitness(s, n - 1, g);
    }
  }

  /** Every player of `Blocks(s, gs, ppg)` belongs to a group of `gs`. */
  lemma {:induction false} BlocksGroups(s: seq<Player>, gs: seq<string>, ppg: nat)
    ensures forall k :: 0 <= k < |Blocks(s, gs, ppg)| ==> Blocks(s, gs, ppg)[k].groupName in gs
  {
    if |gs| > 0 {
      var init, h := gs[..|gs| - 1], gs[|gs| - 1];
      BlocksGroups(s, init, ppg);
      var b: seq<Player>, block: seq<Player> := Blocks(s, init, ppg), Take(Members(s, h), ppg);
      assert Blocks(s, gs, ppg) == b + block;
      forall k | 0 <= k < |b| + |block| ensures (b + block)[k].groupName in gs {
        if k < |b| {
          var x := b[k].groupName;
          assert x in init;
          var j :| 0 <= j < |init| && init[j] == x;
          assert gs[j] == x;
        } else {
          assert block[k - |b|] == Members(s, h)[k - |b|];
        }
      }
    }
  }

  /**
   * Each group of the selection contributes exactly its `ppg` best-ranked players, in rank order;
   * no other group contributes, and no group is taken twice.
   */
  lemma SelectionMembers(players: seq<Player>, groupCount: int, ppg: nat, g: string)
    requires ppg >= 1
    ensures var sorted := SortBy(players, ByRank);
      var taken := Taken(sorted, groupCount, ppg);
      && Distinct(taken)
      && Members(Selection(players, groupCount, ppg), g) == (if g in taken then Take(Members(sorted, g), ppg) else [])
      && |Members(Selection(players, groupCount, ppg), g)| == (if g in taken then ppg else 0)
  {
    var sorted := SortBy(players, ByRank);
    var cs := CompletionsUpTo(sorted, |sorted|, ppg);
    var taken := Taken(sorted, groupCount, ppg);
    CompletionsDistinct(sorted, |sorted|, ppg);
    DistinctPrefix(cs, |taken|);
    BlocksMembers(sorted, taken, ppg, g);
    if g in taken {
      CompletedIff(sorted, |sorted|, ppg, g);
    }
  }

  /** The groups met in the selection are exactly the groups taken. */
  lemma SelectionGroups(players: seq<Player>, groupCount: int, ppg: nat)
    requires ppg >= 1
    ensures GroupsOf(Selection(players, groupCount, ppg)) == set g: string | g in Taken(SortBy(players, ByRank), groupCount, ppg)
  {
    var sorted := SortBy(players, ByRank);
    var taken := Taken(sorted, groupCount, ppg);
    var sel := Selection(players, groupCount, ppg);
    BlocksGroups(sorted, taken, ppg);
    forall g | g in taken ensures g in GroupsOf(sel) {
      SelectionMembers(players, groupCount, ppg, g);
      MembersWitness(sel, |sel|, g);
    }
  }

  /**
   * The selection holds `ppg` players per taken group, at most `Cap(groupCount)` groups; it reaches
   * `groupCount * ppg` players exactly when at least `groupCount` groups can fill up.
   */
  lemma SelectionLength(players: seq<Player>, groupCount: int, ppg: nat)
    requires ppg >= 1
    ensures var sorted := SortBy(players, ByRank);
      var taken := Taken(sorted, groupCount, ppg);
      && |Selection(players, groupCount, ppg)| == ppg * |taken|
      && |taken| <= Cap(groupCount)
      && (groupCount >= 1 ==>
            (|Selection(players, groupCount, ppg)| >= groupCount * ppg <==>
             |CompletionsUpTo(sorted, |sorted|, ppg)| >= groupCount))
  {
    var sorted := SortBy(players, ByRank);
    var taken := Taken(sorted, groupCount, ppg);
    var cs := CompletionsUpTo(sorted, |sorted|, ppg);
    forall g | g in taken ensures |Members(sorted, g)| >= ppg {
      CompletedIff(sorted, |sorted|, ppg, g);
    }
    BlocksLength(sorted, taken, ppg);
    ReachesExpected(|taken|, groupCount, ppg);
    TimesIsProduct(|taken|, ppg);
  }

  /**
   * `select_players`: the players sorted by ascending rank, then scanned by `PickGroups`.
   */
  method SelectPlayers(players: seq<Player>, groupCount: int, playerCountPerGroup: nat)
    returns (selectedPlayers: seq<Player>)
    ensures selectedPlayers == Selection(players, groupCount, playerCountPerGroup)
  {
    var sorted := SortBy(players, ByRank);
    selectedPlayers := PickGroups(sorted, groupCount, playerCountPerGroup);
  }

  /**
   * The scan of `select_players`: a player of a group already selected is skipped; a group is
   * closed and appended once it holds `playerCountPerGroup` players; the scan stops once the
   * selection reaches `groupCount * playerCountPerGroup`.
   */
  method PickGroups(sorted: seq<Player>, groupCount: int, playerCountPerGroup: nat)
    returns (selectedPlayers: seq<Player>)
    ensures selectedPlayers == Picked(sorted, groupCount, playerCountPerGroup)
  {
    var ppg := playerCountPerGroup;
    selectedPlayers := [];
    var expectedCount := groupCount * ppg;
    var selectedGroups: set<string> := {};
    var nominatedGroups: map<string, seq<Player>> := map[];
    var i := 0;
    while i < |sorted|
      invariant i <= |sorted|
      invariant ScanUpTo(sorted, i, groupCount, ppg) == ScanStatus(selectedGroups, nominatedGroups, selectedPlayers, false)
    {
      var player := sorted[i];
      var g := player.groupName;
      i := i + 1;
      if g in selectedGroups {
        continue;
      }
      ghost var oldNominated := nominatedGroups;
      if g !in nominatedGroups {
        nominatedGroups := nominatedGroups[g := []];
      }
      nominatedGroups := nominatedGroups[g := nominatedGroups[g] + [player]];
      assert nominatedGroups == oldNominated[g := Nominated(oldNominated, g) + [player]];
      if |nominatedGroups[g]| != ppg {
        continue;
      }
      selectedGroups := selectedGroups + {g};
      selectedPlayers := selectedPlayers + nominatedGroups[g];
      if |selectedPlayers| >= expectedCount {
        ScanFrozen(sorted, i, |sorted|, groupCount, ppg);
        ScanPicks(sorted, groupCount, ppg);
        return;
      }
    }
    ScanPicks(sorted, groupCount, ppg);
  }

  /** Why `create_season` gives up. */
  datatype SeasonError =
    | IndexError          // `groups[group_index]` past the end of the drawn groups
    | AttributeError      // a drawn group the store does not hold (`None`)
    | InitFailed(error: InitError)
    | ValueError          // a thread pool of no workers, when no group filled up
    | SeasonNotCompleted  // "Complete previous season before starting a new season."

  /** `Group.objects.filter_by(name=name).first()`: the first stored group of that name, if any. */
  function FindGroup(store: seq<Group>, name: string): (r: Option<Group>)
    ensures r.Some? ==> r.value.name == name && r.value in store
    ensures r.None? <==> forall k :: 0 <= k < |store| ==> store[k].name != name
  {
    if |store| == 0 then None
    else if store[0].name == name then Some(store[0])
    else
      var r := FindGroup(store[1..], name);
      assert forall k :: 1 <= k < |store| ==> store[k] == store[1..][k - 1];
      r
  }

  /** One store lookup per name, in the order of the names. */
  function Lookups(store: seq<Group>, names: seq<string>): (r: seq<Option<Group>>)
    ensures |r| == |names|
  {
    seq(|names|, k requires 0 <= k < |names| => FindGroup(store, names[k]))
  }

  predicate AllFound(groups: seq<Option<Group>>)
  {
    forall k :: 0 <= k < |groups| ==> groups[k].Some?
  }

  /** `s` lists each member of `names` once, in some order. */
  predicate Listing(s: seq<string>, names: set<string>)
  {
    && |s| == |names|
    && (forall i, j | 0 <= i < j < |s| :: s[i] != s[j])
    && (forall x | x in s :: x in names)
    && (forall x | x in names :: x in s)
  }

  lemma ListingExists(names: set<string>)
    ensures exists s :: Listing(s, names)
    decreases |names|
  {
    if names == {} {
      assert Listing([], names);
    } else {
      var x :| x in names;
      var rest := names - {x};
      ListingExists(rest);
      var t :| Listing(t, rest);
      var s := t + [x];
      assert forall y | y in s :: y in names by {
        forall y | y in s ensures y in names {
          if y != x {
            assert y in t;
          }
        }
      }
      assert forall y | y in names :: y in s by {
        forall y | y in names ensures y in s {
          if y != x {
            assert y in rest;
          } else {
            assert s[|t|] == x;
          }
        }
      }
      assert Listing(s, names);
    }
  }

  lemma {:induction false} DistinctCount(s: seq<string>)
    requires Distinct(s)
    ensures |set x | x in s| == |s|
  {
    if |s| > 0 {
      var init := s[..|s| - 1];
      DistinctPrefix(s, |s| - 1);
      DistinctCount(init);
      assert s[|s| - 1] !in init by {
        forall i | 0 <= i < |init| ensures init[i] != s[|s| - 1] {
          assert init[i] == s[i];
        }
      }
      assert (set x | x in s) == (set x | x in init) + {s[|s| - 1]} by {
        assert s == init + [s[|s| - 1]];
      }
    }
  }

  lemma ListingOfDistinct(names: seq<string>, taken: seq<string>)
    requires Distinct(taken) && Listing(names, set g: string | g in taken)
    ensures |names| == |taken|
  {
    DistinctCount(taken);
    assert (set g: string | g in taken) == (set x | x in taken);
  }

  lemma LookupsFound(store: seq<Group>, names: seq<string>, taken: seq<string>)
    requires forall x :: x in names <==> x in taken
    ensures AllFound(Lookups(store, names)) <==> forall g :: g in taken ==> FindGroup(store, g).Some?
  {
    if AllFound(Lookups(store, names)) {
      forall g | g in taken ensures FindGroup(store, g).Some? {
        var k :| 0 <= k < |names| && names[k] == g;
        assert Lookups(store, names)[k].Some?;
      }
    }
    if forall g :: g in taken ==> FindGroup(store, g).Some? {
      forall k | 0 <= k < |names| ensures Lookups(store, names)[k].Some? {
        assert names[k] in taken;
      }
    }
  }

  /**
   * The drawn groups of a season: as many as the groups taken, every drawn name seats exactly
   * `ppg` selected players, and all lookups succeed exactly when every taken group is in the store.
   */
  lemma DrawnGroups(players: seq<Player>, groupCount: int, ppg: nat, store: seq<Group>, names: seq<string>)
    requires ppg >= 1
    requires Listing(names, GroupsOf(Selection(players, groupCount, ppg)))
    ensures var taken := Taken(SortBy(players, ByRank), groupCount, ppg);
      && |names| == |taken| <= Cap(groupCount)
      && (forall k :: 0 <= k < |names| ==> |Members(Selection(players, groupCount, ppg), names[k])| == ppg)
      && (AllFound(Lookups(store, names)) <==> forall g :: g in taken ==> FindGroup(store, g).Some?)
      && (|names| > 0 ==> |Selection(players, groupCount, ppg)| > 0)
  {
    var sel := Selection(players, groupCount, ppg);
    var taken := Taken(SortBy(players, ByRank), groupCount, ppg);
    var drawn := GroupsOf(sel);
    SelectionGroups(players, groupCount, ppg);
    SelectionLength(players, groupCount, ppg);
    SelectionMembers(players, groupCount, ppg, "");
    assert drawn == set g: string | g in taken;
    ListingOfDistinct(names, taken);
    assert forall x :: x in names <==> x in taken by {
      forall x ensures x in names <==> x in taken {
        assert x in names <==> x in drawn;
      }
    }
    forall k | 0 <= k < |names| ensures |Members(sel, names[k])| == ppg {
      SelectionMembers(players, groupCount, ppg, names[k]);
    }
    LookupsFound(store, names, taken);
  }

  /**
   * `initialize_series`: seat the drawn group at `groupIndex` with its selected players and move on
   * to the next index. The players are filtered by the group's name before the group itself is
   * used, so a missing group fails on `None.name` unless there are no players to filter.
   */
  method InitializeSeries(series: CupSeries, players: seq<Player>, groups: seq<Option<Group>>, groupIndex: nat)
    returns (r: Result<nat, SeasonError>)
    requires series.Valid()
    modifies series
    ensures series.Valid()
    ensures r.Err? ==> unchanged(series)
    ensures groupIndex >= |groups| ==> r == Err(IndexError)
    ensures groupIndex < |groups| && groups[groupIndex].None? ==>
      r == Err(if |players| == 0 && old(series.AreGroupsInitialized()) then InitFailed(GroupAlreadyInitialized)
               else if |players| == 0 && series.playerPerGroup != 0
               then InitFailed(InvalidNumberOfPlayersProvidedForInitialization)
               else AttributeError)
    ensures groupIndex < |groups| && groups[groupIndex].Some? ==>
      var g := groups[groupIndex].value;
      var members := Members(players, g.name);
      && (old(series.AreGroupsInitialized()) ==> r == Err(InitFailed(GroupAlreadyInitialized)))
      && (!old(series.AreGroupsInitialized()) && |members| != series.playerPerGroup ==>
            r == Err(InitFailed(InvalidNumberOfPlayersProvidedForInitialization)))
      && (!old(series.AreGroupsInitialized()) && |members| == series.playerPerGroup ==>
            r == Ok(groupIndex + 1) && Seated(series, g, members))
  {
    if groupIndex >= |groups| {
      return Err(IndexError);
    }
    if groups[groupIndex].None? {
      if |players| > 0 {
        return Err(AttributeError);
      }
      if series.AreGroupsInitialized() {
        return Err(InitFailed(GroupAlreadyInitialized));
      }
      if series.playerPerGroup != 0 {
        return Err(InitFailed(InvalidNumberOfPlayersProvidedForInitialization));
      }
      return Err(AttributeError);
    }
    var group := groups[groupIndex].value;
    var outcome := series.InitializeGroup(group, Members(players, group.name));
    if outcome.Fail? {
      return Err(InitFailed(outcome.error));
    }
    return Ok(groupIndex + 1);
  }

  /** The (round, match) numbers of round `r`: matches 1 to `TotalMatchesPerRound(n, r)`. */
  function RoundSlots(n: int, r: nat): (slots: seq<(nat, nat)>)
    requires RoundCalculator.IsPowerOfTwo(n) && 1 <= r <= RoundCalculator.TotalRounds(n)
    ensures |slots| == RoundCalculator.TotalMatchesPerRound(n, r)
  {
    seq(RoundCalculator.TotalMatchesPerRound(n, r), j requires j >= 0 => (r, j + 1))
  }

  /** The (round, match) numbers of rounds 1 to `r`, round by round. */
  function SlotsUpTo(n: int, r: nat): (slots: seq<(nat, nat)>)
    requires RoundCalculator.IsPowerOfTwo(n) && r <= RoundCalculator.TotalRounds(n)
    ensures |slots| == RoundCalculator.SeriesUpTo(n, r)
  {
    if r == 0 then [] else SlotsUpTo(n, r - 1) + RoundSlots(n, r)
  }

  /** A round-1 series seated with the drawn groups `a` and `a + 1` and their selected players. */
  ghost predicate SeededFrom(s: CupSeries, drawn: seq<Option<Group>>, a: int, selected: seq<Player>)
    reads s
  {
    && 0 <= a && a + 1 < |drawn| && drawn[a].Some? && drawn[a + 1].Some?
    && var g1, g2 := drawn[a].value, drawn[a + 1].value;
    && s.groupFullNames == [g1.fullname, g2.fullname] && s.groupRanks == [g1.rank, g2.rank]
    && s.player1Names == Names(Members(selected, g1.name)) && s.player1Ranks == Ranks(Members(selected, g1.name))
    && s.player2Names == Names(Members(selected, g2.name)) && s.player2Ranks == Ranks(Members(selected, g2.name))
    && IsRoundRobin(s.matchPlayer1Names, s.matchPlayer2Names, s.player1Names, s.player2Names, s.playerPerGroup)
  }

  /**
   * A series created by `create_season` for `slot`: round-1 match `m` is seated with drawn groups
   * `2m - 2` and `2m - 1`; later rounds wait with both slots "TBD".
   */
  ghost predicate Placed(s: CupSeries, season: int, slot: (nat, nat), groupCount: int, ppg: nat,
                         drawn: seq<Option<Group>>, selected: seq<Player>)
    reads s
  {
    && s.Valid()
    && s.season == season && s.roundNumber == slot.0 && s.matchNumber == slot.1
    && s.totalGroupCount == groupCount && s.playerPerGroup == ppg && s.matchWinnerNames == []
    && (slot.0 == 1 ==> SeededFrom(s, drawn, 2 * slot.1 - 2, selected))
    && (slot.0 != 1 ==> && s.Stage() == Empty && s.groupFullNames == [TBD, TBD] && s.groupRanks == [0, 0]
                        && s.matchPlayer1Names == [] && s.matchPlayer2Names == [])
  }

  /**
   * The two `initialize_series` calls of one round-1 match: seat the drawn groups `groupIndex`
   * and `groupIndex + 1` in a fresh series, each with its selected players.
   */
  method SeedSeries(series: CupSeries, selected: seq<Player>, groups: seq<Option<Group>>, groupIndex: nat)
    returns (r: Result<nat, SeasonError>)
    requires series.Valid() && series.player1Names == [] && series.player2Names == []
    requires series.groupFullNames == [TBD, TBD] && series.groupRanks == [0, 0]
    requires series.playerPerGroup >= 1
    requires forall k :: 0 <= k < |groups| && groups[k].Some? ==>
      |Members(selected, groups[k].value.name)| == series.playerPerGroup
    requires |groups| > 0 ==> |selected| > 0
    modifies series
    ensures r.Ok? <==> groupIndex + 1 < |groups| && groups[groupIndex].Some? && groups[groupIndex + 1].Some?
    ensures r.Err? ==> r.error == IndexError || r.error == AttributeError
    ensures r.Ok? ==> r.value == groupIndex + 2 && series.Valid() && series.matchWinnerNames == old(series.matchWinnerNames)
    ensures r.Ok? ==> SeededFrom(series, groups, groupIndex, selected)
  {
    r := InitializeSeries(series, selected, groups, groupIndex);
    if r.Err? {
      return;
    }
    r := InitializeSeries(series, selected, groups, r.value);
    if r.Ok? {
      assert series.groupFullNames == [groups[groupIndex].value.fullname, groups[groupIndex + 1].value.fullname];
      assert series.groupRanks == [groups[groupIndex].value.rank, groups[groupIndex + 1].value.rank];
    }
  }

  /** The series created so far: one per slot, the `k`-th placed at the `k`-th slot. */
  ghost predicate AllPlaced(created: seq<CupSeries>, season: int, slots: seq<(nat, nat)>, groupCount: int, ppg: nat,
                            drawn: seq<Option<Group>>, selected: seq<Player>)
    reads created
  {
    && |created| == |slots|
    && (forall k {:trigger Placed(created[k], season, slots[k], groupCount, ppg, drawn, selected)} ::
          0 <= k < |created| ==> Placed(created[k], season, slots[k], groupCount, ppg, drawn, selected))
  }

  lemma AllPlacedAppend(created: seq<CupSeries>, series: CupSeries, season: int, slots: seq<(nat, nat)>,
                        slot: (nat, nat), groupCount: int, ppg: nat, drawn: seq<Option<Group>>, selected: seq<Player>)
    requires AllPlaced(created, season, slots, groupCount, ppg, drawn, selected)
    requires Placed(series, season, slot, groupCount, ppg, drawn, selected)
    ensures AllPlaced(created + [series], season, slots + [slot], groupCount, ppg, drawn, selected)
  {
    var c, t := created + [series], slots + [slot];
    forall k | 0 <= k < |c| ensures Placed(c[k], season, t[k], groupCount, ppg, drawn, selected) {
      if k < |created| {
        assert c[k] == created[k] && t[k] == slots[k];
      }
    }
  }

  lemma AllPlacedConcat(a: seq<CupSeries>, b: seq<CupSeries>, season: int, slotsA: seq<(nat, nat)>,
                        slotsB: seq<(nat, nat)>, groupCount: int, ppg: nat, drawn: seq<Option<Group>>, selected: seq<Player>)
    requires AllPlaced(a, season, slotsA, groupCount, ppg, drawn, selected)
    requires AllPlaced(b, season, slotsB, groupCount, ppg, drawn, selected)
    ensures AllPlaced(a + b, season, slotsA + slotsB, groupCount, ppg, drawn, selected)
  {
    var c, t := a + b, slotsA + slotsB;
    forall k | 0 <= k < |c| ensures Placed(c[k], season, t[k], groupCount, ppg, drawn, selected) {
      if k < |a| {
        assert c[k] == a[k] && t[k] == slotsA[k];
      } else {
        assert c[k] == b[k - |a|] && t[k] == slotsB[k - |a|];
      }
    }
  }

  /** Every slot of rounds 1 to `r` names a round in that range and a match of that round. */
  lemma {:induction false} SlotsInRange(n: int, r: nat)
    requires RoundCalculator.IsPowerOfTwo(n) && r <= RoundCalculator.TotalRounds(n)
    ensures forall k :: 0 <= k < |SlotsUpTo(n, r)| ==>
      1 <= SlotsUpTo(n, r)[k].0 <= r && 1 <= SlotsUpTo(n, r)[k].1 <= RoundCalculator.TotalMatchesPerRound(n, SlotsUpTo(n, r)[k].0)
  {
    if r > 0 {
      SlotsInRange(n, r - 1);
      var prev: seq<(nat, nat)>, round: seq<(nat, nat)> := SlotsUpTo(n, r - 1), RoundSlots(n, r);
      assert SlotsUpTo(n, r) == prev + round;
      forall k | 0 <= k < |prev| + |round|
        ensures 1 <= (prev + round)[k].0 <= r
        ensures 1 <= (prev + round)[k].1 <= RoundCalculator.TotalMatchesPerRound(n, (prev + round)[k].0)
      {
        if k < |prev| {
          assert (prev + round)[k] == prev[k];
        } else {
          assert (prev + round)[k] == round[k - |prev|];
        }
      }
    }
  }

  /** The slots of a season are pairwise different (round, match) pairs. */
  lemma {:induction false} SlotsDistinct(n: int, r: nat)
    requires RoundCalculator.IsPowerOfTwo(n) && r <= RoundCalculator.TotalRounds(n)
    ensures forall i, j :: 0 <= i < j < |SlotsUpTo(n, r)| ==> SlotsUpTo(n, r)[i] != SlotsUpTo(n, r)[j]
  {
    if r > 0 {
      SlotsDistinct(n, r - 1);
      SlotsInRange(n, r - 1);
      var prev: seq<(nat, nat)>, round: seq<(nat, nat)> := SlotsUpTo(n, r - 1), RoundSlots(n, r);
      assert SlotsUpTo(n, r) == prev + round;
      forall i, j | 0 <= i < j < |prev| + |round| ensures (prev + round)[i] != (prev + round)[j] {
        if j < |prev| {
          assert (prev + round)[i] == prev[i] && (prev + round)[j] == prev[j];
        } else if i >= |prev| {
          assert (prev + round)[i] == round[i - |prev|] && (prev + round)[j] == round[j - |prev|];
        } else {
          assert (prev + round)[i] == prev[i] && (prev + round)[j] == round[j - |prev|];
        }
      }
    }
  }

  /** Series placed at different slots are different series. */
  lemma PlacedDistinct(created: seq<CupSeries>, season: int, n: int, groupCount: int, ppg: nat,
                       drawn: seq<Option<Group>>, selected: seq<Player>)
    requires RoundCalculator.IsPowerOfTwo(n)
    requires AllPlaced(created, season, SlotsUpTo(n, RoundCalculator.TotalRounds(n)), groupCount, ppg, drawn, selected)
    ensures forall i, j :: 0 <= i < j < |created| ==> created[i] != created[j]
  {
    var slots := SlotsUpTo(n, RoundCalculator.TotalRounds(n));
    SlotsDistinct(n, RoundCalculator.TotalRounds(n));
    forall i, j | 0 <= i < j < |created| ensures created[i] != created[j] {
      assert Placed(created[i], season, slots[i], groupCount, ppg, drawn, selected);
      assert Placed(created[j], season, slots[j], groupCount, ppg, drawn, selected);
    }
  }

  /**
   * One iteration of the inner loop of `create_season`: a new series for match `matchNumber` of
   * round `roundNumber`, seated from the drawn groups when it belongs to round 1.
   */
  method NewSeries(season: int, roundNumber: nat, matchNumber: nat, groupCount: int, ppg: nat,
                   selected: seq<Player>, groups: seq<Option<Group>>, groupIndex: nat)
    returns (series: CupSeries, r: Result<nat, SeasonError>)
    requires ppg >= 1 && (roundNumber == 1 ==> groupIndex == 2 * matchNumber - 2)
    requires forall k :: 0 <= k < |groups| && groups[k].Some? ==> |Members(selected, groups[k].value.name)| == ppg
    requires |groups| > 0 ==> |selected| > 0
    ensures fresh(series)
    ensures roundNumber != 1 ==> r == Ok(groupIndex)
    ensures roundNumber == 1 ==>
      (r.Ok? <==> groupIndex + 1 < |groups| && groups[groupIndex].Some? && groups[groupIndex + 1].Some?)
    ensures roundNumber == 1 && r.Ok? ==> r.value == groupIndex + 2
    ensures r.Err? ==> r.error == IndexError || r.error == AttributeError
    ensures r.Ok? ==> Placed(series, season, (roundNumber, matchNumber), groupCount, ppg, groups, selected)
  {
    series := new CupSeries(season, roundNumber, matchNumber, groupCount, ppg);
    if roundNumber != 1 {
      return series, Ok(groupIndex);
    }
    r := SeedSeries(series, selected, groups, groupIndex);
  }

  /** The first `n` drawn groups exist and were found in the store. */
  predicate SeatsFound(groups: seq<Option<Group>>, n: nat)
  {
    n <= |groups| && forall k :: 0 <= k < n ==> groups[k].Some?
  }

  lemma SeatsStep(groups: seq<Option<Group>>, i: nat)
    ensures SeatsFound(groups, i + 2) <==>
      SeatsFound(groups, i) && i + 1 < |groups| && groups[i].Some? && groups[i + 1].Some?
  {
  }

  /**
   * The inner loop of `create_season`: one new series per match of round `roundNumber`; in round 1
   * match `m` is seated with drawn groups `2m - 2` and `2m - 1`.
   */
  method CreateRound(season: int, roundNumber: nat, groupCount: int, ppg: nat, selected: seq<Player>,
                     groups: seq<Option<Group>>, groupIndex: nat)
    returns (r: Result<(seq<CupSeries>, nat), SeasonError>)
    requires RoundCalculator.IsPowerOfTwo(groupCount) && 1 <= roundNumber <= RoundCalculator.TotalRounds(groupCount)
    requires ppg >= 1 && (roundNumber == 1 ==> groupIndex == 0)
    requires forall k :: 0 <= k < |groups| && groups[k].Some? ==> |Members(selected, groups[k].value.name)| == ppg
    requires |groups| > 0 ==> |selected| > 0
    ensures var matches := RoundCalculator.TotalMatchesPerRound(groupCount, roundNumber);
      && (roundNumber != 1 ==> r.Ok? && r.value.1 == groupIndex)
      && (roundNumber == 1 ==> (r.Ok? <==> SeatsFound(groups, 2 * matches)))
      && (roundNumber == 1 && r.Ok? ==> r.value.1 == 2 * matches)
    ensures r.Err? ==> r.error == IndexError || r.error == AttributeError
    ensures r.Ok? ==> forall k :: 0 <= k < |r.value.0| ==> fresh(r.value.0[k])
    ensures r.Ok? ==>
      AllPlaced(r.value.0, season, RoundSlots(groupCount, roundNumber), groupCount, ppg, groups, selected)
  {
    var matches := RoundCalculator.TotalMatchesPerRound(groupCount, roundNumber);
    var created: seq<CupSeries> := [];
    ghost var slots: seq<(nat, nat)> := [];
    var index := groupIndex;
    var matchNumber := 1;
    while matchNumber <= matches
      invariant 1 <= matchNumber <= matches + 1
      invariant |slots| == matchNumber - 1 && forall k :: 0 <= k < |slots| ==> slots[k] == (roundNumber, k + 1)
      invariant forall k :: 0 <= k < |created| ==> fresh(created[k])
      invariant AllPlaced(created, season, slots, groupCount, ppg, groups, selected)
      invariant roundNumber != 1 ==> index == groupIndex
      invariant roundNumber == 1 ==> index == 2 * (matchNumber - 1) && SeatsFound(groups, index)
    {
      var series, step := NewSeries(season, roundNumber, matchNumber, groupCount, ppg, selected, groups, index);
      SeatsStep(groups, index);
      if step.Err? {
        return Err(step.error);
      }
      AllPlacedAppend(created, series, season, slots, (roundNumber, matchNumber), groupCount, ppg, groups, selected);
      created, slots := created + [series], slots + [(roundNumber, matchNumber)];
      index := step.value;
      matchNumber := matchNumber + 1;
    }
    assert slots == RoundSlots(groupCount, roundNumber);
    return Ok((created, index));
  }

  /** Round 1 seats every drawn group exactly when all `groupCount` groups were drawn and found. */
  lemma FirstRoundSeats(groupCount: int, groups: seq<Option<Group>>)
    requires RoundCalculator.IsPowerOfTwo(groupCount) && RoundCalculator.TotalRounds(groupCount) >= 1
    requires |groups| <= groupCount
    ensures 2 * RoundCalculator.TotalMatchesPerRound(groupCount, 1) == groupCount
    ensures SeatsFound(groups, 2 * RoundCalculator.TotalMatchesPerRound(groupCount, 1)) <==>
              |groups| == groupCount && AllFound(groups)
  {
    RoundCalculator.SeriesInSeason(groupCount);
  }

  /**
   * The nested loops of `create_season`: the series of every round, round by round, the group
   * index carried from round to round.
   */
  method CreateSeries(season: int, groupCount: int, ppg: nat, selected: seq<Player>, groups: seq<Option<Group>>)
    returns (r: Result<seq<CupSeries>, SeasonError>)
    requires RoundCalculator.IsPowerOfTwo(groupCount) && ppg >= 1 && |groups| <= groupCount
    requires forall k :: 0 <= k < |groups| && groups[k].Some? ==> |Members(selected, groups[k].value.name)| == ppg
    requires |groups| > 0 ==> |selected| > 0
    ensures r.Ok? <==> groupCount == 1 || (|groups| == groupCount && AllFound(groups))
    ensures r.Err? ==> r.error == IndexError || r.error == AttributeError
    ensures r.Ok? ==> forall k :: 0 <= k < |r.value| ==> fresh(r.value[k])
    ensures r.Ok? ==>
      AllPlaced(r.value, season, SlotsUpTo(groupCount, RoundCalculator.TotalRounds(groupCount)), groupCount, ppg, groups, selected)
  {
    var totalRounds := RoundCalculator.TotalRounds(groupCount);
    var created: seq<CupSeries> := [];
    ghost var done: seq<(nat, nat)> := [];
    var groupIndex: nat := 0;
    var roundNumber := 1;
    while roundNumber <= totalRounds
      invariant 1 <= roundNumber <= totalRounds + 1 && done == SlotsUpTo(groupCount, roundNumber - 1)
      invariant forall k :: 0 <= k < |created| ==> fresh(created[k])
      invariant AllPlaced(created, season, done, groupCount, ppg, groups, selected)
      invariant roundNumber == 1 ==> groupIndex == 0
      invariant roundNumber > 1 ==> groupIndex == groupCount == |groups| && AllFound(groups)
    {
      var round := CreateRound(season, roundNumber, groupCount, ppg, selected, groups, groupIndex);
      if roundNumber == 1 {
        FirstRoundSeats(groupCount, groups);
      }
      if round.Err? {
        return Err(round.error);
      }
      ghost var slots := RoundSlots(groupCount, roundNumber);
      AllPlacedConcat(created, round.value.0, season, done, slots, groupCount, ppg, groups, selected);
      created, done := created + round.value.0, done + slots;
      groupIndex := round.value.1;
      roundNumber := roundNumber + 1;
    }
    if totalRounds == 0 {
      assert groupCount == RoundCalculator.Pow2(0) == 1;
    }
    return Ok(created);
  }

  /**
   * `create_season`: refuse while the latest series is unfinished; otherwise select the players,
   * draw their groups in some order and create the season's series. With no group drawn the
   * lookups' thread pool has no workers and raises `ValueError`. Any failure leaves the season
   * uncreated.
   */
  method CreateSeason(latest: CupSeries?, groupCount: int, ppg: nat, players: seq<Player>, store: seq<Group>)
    returns (r: Result<seq<CupSeries>, SeasonError>, ghost drawn: seq<Option<Group>>)
    requires RoundCalculator.IsPowerOfTwo(groupCount)
    ensures latest != null && !latest.IsSeriesCompleted() ==> r == Err(SeasonNotCompleted)
    ensures latest == null || latest.IsSeriesCompleted() ==>
      && (exists names :: Listing(names, GroupsOf(Selection(players, groupCount, ppg))) && drawn == Lookups(store, names))
      && (|drawn| == 0 ==> r == Err(ValueError))
      && (ppg == 0 ==> |drawn| == 0)
      && (r.Ok? <==> |drawn| > 0 && (groupCount == 1 || (|drawn| == groupCount && AllFound(drawn))))
      && (r.Err? ==> r.error == IndexError || r.error == AttributeError || r.error == ValueError)
    ensures r.Ok? ==> |r.value| == groupCount - 1 && (forall k :: 0 <= k < |r.value| ==> fresh(r.value[k]))
    ensures r.Ok? ==>
      AllPlaced(r.value, if latest == null then 1 else latest.season + 1,
                SlotsUpTo(groupCount, RoundCalculator.TotalRounds(groupCount)), groupCount, ppg, drawn,
                Selection(players, groupCount, ppg))
  {
    drawn := [];
    if latest != null && !latest.IsSeriesCompleted() {
      return Err(SeasonNotCompleted), drawn;
    }
    var season := (if latest == null then 0 else latest.season) + 1;
    var selectedPlayers := SelectPlayers(players, groupCount, ppg);
    if ppg == 0 {
      // No group ever reaches a quota of zero, so nothing is selected.
      ScanWithoutQuota(SortBy(players, ByRank), |players|, groupCount);
      assert selectedPlayers == [];
    }
    // The set of group names, fetched concurrently and shuffled: the lookups in any order.
    ListingExists(GroupsOf(selectedPlayers));
    var names: seq<string> :| Listing(names, GroupsOf(selectedPlayers));
    var groups := Lookups(store, names);
    drawn := groups;
    if |names| == 0 {
      // No lookups to run: the thread pool is opened with zero workers and refuses.
      return Err(ValueError), drawn;
    }
    DrawnGroups(players, groupCount, ppg, store, names);
    r := CreateSeries(season, groupCount, ppg, selectedPlayers, groups);
    RoundCalculator.SeriesInSeason(groupCount);
  }
}
