/** The group phase: every radio group ends with exactly one visible layer. */
module LayerGroups {
  import opened Names
  import opened LayerTables
  import opened LayerStates

  /** `j` is one of the radio-group layers among the children of `w`. */
  predicate Radio(t: Tables, w: int, j: nat)
    requires j < |t.layers|
  {
    t.layers[j].parent == w && IsGroup(t.layers[j].name)
  }

  lemma GroupIsRadio(t: Tables, g: Group, j: nat)
    requires WellFormed(t) && g in AllGroups(t) && j < |t.layers|
    ensures t.layers[j].seqId in g.members <==> Radio(t, g.owner, j)
  {
    hide IsGroup, RowsLinked;
    RowIsFound(t, j);
    var id := KeyOfValue(t.groupMap, g);
    if t.layers[j].seqId in g.members {
      assert t.groupMap[t.layers[j].seqId] == g;
    }
    if Radio(t, g.owner, j) {
      assert t.groupMap[t.layers[j].seqId].owner == g.owner;
    }
  }

  lemma RowIsFound(t: Tables, j: nat)
    requires RowsLinked(t) && j < |t.layers|
    ensures t.layers[j].seqId in t.mapped && t.mapped[t.layers[j].seqId] == j
  {}

  /** Exactly one radio-group child of `w` is visible. */
  ghost predicate OneVisible(t: Tables, s: States, w: int)
    requires |s| == |t.layers|
  {
    exists x :: OnlyVisible(t, s, w, x)
  }

  ghost predicate OnlyVisible(t: Tables, s: States, w: int, x: nat)
    requires |s| == |t.layers|
  {
    && x < |s| && Radio(t, w, x) && s[x].visible
    && forall y :: 0 <= y < |s| && Radio(t, w, y) && s[y].visible ==> y == x
  }

  /** All radio groups of the tree have exactly one visible layer. */
  ghost predicate AllOneVisible(t: Tables, s: States)
    requires |s| == |t.layers|
  {
    forall g <- AllGroups(t) :: OneVisible(t, s, g.owner)
  }

  lemma GroupOneMeaning(t: Tables, s: States, g: Group, pri: int)
    requires Fits(t, s) && g in AllGroups(t) && |g.members| > 0 && Members(t, g.members)
    ensures var w := Find(t, Winner(t, s, g.members)).value;
      && OnlyVisible(t, GroupOne(t, s, g, pri), g.owner, w)
      && (forall j :: 0 <= j < |s| && !Radio(t, g.owner, j) ==> GroupOne(t, s, g, pri)[j] == s[j])
  {
    forall j | 0 <= j < |s|
      ensures t.layers[j].seqId in g.members <==> Radio(t, g.owner, j)
    {
      GroupIsRadio(t, g, j);
    }
  }

  lemma {:induction false} WinnerReadsMembers(t: Tables, s: States, r: States, members: seq<SeqID>)
    requires Fits(t, s) && Fits(t, r) && Members(t, members)
    requires forall m <- members :: StateOf(t, s, m) == StateOf(t, r, m)
    ensures Best(t, s, members) == Best(t, r, members)
  {
    if members != [] {
      var front := members[..|members| - 1];
      assert forall m <- front :: m in members;
      assert members[|members| - 1] in members;
      WinnerReadsMembers(t, s, r, front);
    }
  }

  /** `r` is `s` with every group of `done` normalised, each from its state in `s`. */
  ghost predicate Grouped(t: Tables, s: States, r: States, done: set<Group>, pri: int)
    requires Fits(t, s) && Fits(t, r) && forall g <- done :: |g.members| > 0 && Members(t, g.members)
  {
    && (forall g, j :: g in done && 0 <= j < |s| && t.layers[j].seqId in g.members ==> r[j] == GroupOne(t, s, g, pri)[j])
    && (forall j :: 0 <= j < |s| && (forall g <- done :: t.layers[j].seqId !in g.members) ==> r[j] == s[j])
  }

  lemma GroupsDisjoint(t: Tables, g: Group, h: Group, id: SeqID)
    requires WellFormed(t) && g in AllGroups(t) && h in AllGroups(t) && id in g.members && id in h.members
    ensures g == h
  {
    var x := KeyOfValue(t.groupMap, g);
    var y := KeyOfValue(t.groupMap, h);
    assert t.groupMap[id] == g;
  }

  lemma {:induction false} GroupFoldMeaning(t: Tables, s: States, order: seq<Group>, done: set<Group>, pri: int)
    requires Fits(t, s) && OrderOf(order, done) && done <= AllGroups(t)
    requires forall g <- done :: |g.members| > 0 && Members(t, g.members)
    ensures Grouped(t, s, GroupFold(t, s, order, pri), done, pri)
    decreases |order|
  {
    hide WellFormed, OrderOf, AllGroups, Grouped, GroupOne, Members;
    if order == [] {
      NothingGrouped(t, s, done, pri);
    } else {
      var last, front := order[|order| - 1], order[..|order| - 1];
      var before := done - {last};
      OrderShrinks(order, done);
      OrderWithin(front, before, AllGroups(t));
      GroupFoldMeaning(t, s, front, before, pri);
      GroupStepMeaning(t, s, GroupFold(t, s, front, pri), before, last, pri);
      assert before + {last} == done;
    }
  }

  lemma OrderWithin<T(!new)>(q: seq<T>, all: set<T>, big: set<T>)
    requires OrderOf(q, all) && all <= big
    ensures forall x <- q :: x in big
  {}

  lemma NothingGrouped(t: Tables, s: States, done: set<Group>, pri: int)
    requires Fits(t, s) && OrderOf([], done) && forall g <- done :: |g.members| > 0 && Members(t, g.members)
    ensures Grouped(t, s, s, done, pri)
  {
    assert done == {};
  }

  lemma GroupStepMeaning(t: Tables, s: States, r: States, before: set<Group>, last: Group, pri: int)
    requires Fits(t, s) && Fits(t, r) && before <= AllGroups(t) && last in AllGroups(t) && last !in before
    requires forall g <- before + {last} :: |g.members| > 0 && Members(t, g.members)
    requires Grouped(t, s, r, before, pri)
    ensures Grouped(t, s, GroupOne(t, r, last, pri), before + {last}, pri)
  {
    hide WellFormed, GroupOne;
    forall m, g | m in last.members && g in before
      ensures m !in g.members
    {
      if m in g.members {
        GroupsDisjoint(t, g, last, m);
      }
    }
    forall m | m in last.members
      ensures StateOf(t, s, m) == StateOf(t, r, m)
    {
      MemberRow(t, m);
    }
    GroupOneReads(t, s, r, last, pri);
    OneMoreGrouped(t, s, r, GroupOne(t, r, last, pri), before, last, pri);
  }

  lemma MemberRow(t: Tables, m: SeqID)
    requires WellFormed(t) && m in t.mapped
    ensures Find(t, m).Some? && t.layers[Find(t, m).value].seqId == m
  {
    hide GroupsLinked;
  }

  /** What becomes of a group depends on its members only. */
  lemma GroupOneReads(t: Tables, s: States, r: States, g: Group, pri: int)
    requires Fits(t, s) && Fits(t, r) && |g.members| > 0 && Members(t, g.members)
    requires forall m <- g.members :: StateOf(t, s, m) == StateOf(t, r, m)
    ensures forall j :: 0 <= j < |s| ==>
      GroupOne(t, r, g, pri)[j] == if t.layers[j].seqId in g.members then GroupOne(t, s, g, pri)[j] else r[j]
  {
    WinnerReadsMembers(t, s, r, g.members);
    hide Best, GroupsLinked;
    forall j | 0 <= j < |s|
      ensures t.layers[j].seqId in g.members ==> s[j] == r[j]
    {
      if t.layers[j].seqId in g.members {
        RowIsFound(t, j);
        assert StateOf(t, s, t.layers[j].seqId) == StateOf(t, r, t.layers[j].seqId);
      }
    }
  }

  lemma OneMoreGrouped(t: Tables, s: States, r: States, r1: States, before: set<Group>, last: Group, pri: int)
    requires Fits(t, s) && Fits(t, r) && Fits(t, r1)
    requires forall g <- before + {last} :: |g.members| > 0 && Members(t, g.members)
    requires Grouped(t, s, r, before, pri)
    requires forall m, g :: m in last.members && g in before ==> m !in g.members
    requires forall j :: 0 <= j < |s| ==>
      r1[j] == if t.layers[j].seqId in last.members then GroupOne(t, s, last, pri)[j] else r[j]
    ensures Grouped(t, s, r1, before + {last}, pri)
  {
    hide WellFormed, GroupOne;
  }

  /** After the group phase, in any order, every group has exactly one visible layer, and it is
      the winner of the states before; layers outside the groups keep their state. */
  lemma GroupPhaseMeaning(t: Tables, s: States, order: seq<Group>, pri: int)
    requires Fits(t, s) && OrderOf(order, AllGroups(t))
    ensures AllOneVisible(t, GroupFold(t, s, order, pri))
    ensures forall g <- AllGroups(t) :: |g.members| > 0 && Members(t, g.members)
    ensures forall g <- AllGroups(t) ::
      OnlyVisible(t, GroupFold(t, s, order, pri), g.owner, Find(t, Winner(t, s, g.members)).value)
    ensures forall j :: 0 <= j < |s| && !IsGroup(t.layers[j].name) ==> GroupFold(t, s, order, pri)[j] == s[j]
  {
    hide RowsLinked, GroupsLinked, GroupFold, GroupOne, Winner;
    var r := GroupFold(t, s, order, pri);
    forall g | g in AllGroups(t)
      ensures |g.members| > 0 && Members(t, g.members)
    {
      GroupHasMembers(t, g);
    }
    GroupFoldMeaning(t, s, order, AllGroups(t), pri);
    forall g | g in AllGroups(t)
      ensures OnlyVisible(t, r, g.owner, Find(t, Winner(t, s, g.members)).value)
    {
      GroupOneMeaning(t, s, g, pri);
      forall j | 0 <= j < |s| && Radio(t, g.owner, j)
        ensures r[j] == GroupOne(t, s, g, pri)[j]
      {
        GroupIsRadio(t, g, j);
      }
    }
    forall j | 0 <= j < |s| && !IsGroup(t.layers[j].name)
      ensures r[j] == s[j]
    {
      forall g | g in AllGroups(t)
        ensures t.layers[j].seqId !in g.members
      {
        GroupIsRadio(t, g, j);
      }
    }
  }

  lemma GroupedUnique(t: Tables, s: States, r1: States, r2: States, done: set<Group>, pri: int)
    requires Fits(t, s) && Fits(t, r1) && Fits(t, r2) && forall g <- done :: |g.members| > 0 && Members(t, g.members)
    requires Grouped(t, s, r1, done, pri) && Grouped(t, s, r2, done, pri)
    ensures r1 == r2
  {
    hide WellFormed, GroupOne;
    forall j | 0 <= j < |s|
      ensures r1[j] == r2[j]
    {
      if exists g :: g in done && t.layers[j].seqId in g.members {
        var g :| g in done && t.layers[j].seqId in g.members;
      }
    }
  }

  lemma GroupOrderIrrelevant(t: Tables, s: States, o1: seq<Group>, o2: seq<Group>, pri: int)
    requires Fits(t, s) && OrderOf(o1, AllGroups(t)) && OrderOf(o2, AllGroups(t))
    ensures GroupFold(t, s, o1, pri) == GroupFold(t, s, o2, pri)
  {
    forall g | g in AllGroups(t)
      ensures |g.members| > 0 && Members(t, g.members)
    {
      GroupHasMembers(t, g);
    }
    GroupFoldMeaning(t, s, o1, AllGroups(t), pri);
    GroupFoldMeaning(t, s, o2, AllGroups(t), pri);
    GroupedUnique(t, s, GroupFold(t, s, o1, pri), GroupFold(t, s, o2, pri), AllGroups(t), pri);
  }
}
