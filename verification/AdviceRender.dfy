/** internal/advice/render.go: advice grouped under one heading per job. */
module AdviceRender {
  import opened Text
  import opened Advice

  const CLEAN := "You are all good dude!"

  function TrimFeeds(s: string): string {
    if s != "" && s[|s| - 1] == '\n' then TrimFeeds(s[..|s| - 1]) else s
  }

  function Item(a: Advice): string { "**" + a.title + "**\n\n" + TrimFeeds(a.body) + "\n\n" }

  function JobHeading(job: string): string { "#### `" + job + "`\n\n" }

  function Header(pipeline: int): string { "### Advice for pipeline #" + DecInt(pipeline) + "\n\n" }

  // ---- what the text is to show -----------------------------------------------------

  datatype Block = Heading(job: string) | Entry(a: Advice)

  /** The advice about one job, in input order; "" is the pipeline. */
  function About(all: seq<Advice>, job: string): seq<Advice> {
    if all == [] then [] else
    var a := all[|all| - 1];
    About(all[..|all| - 1], job) + if a.job == job then [a] else []
  }

  /** The jobs that are named, each at its first appearance. */
  function JobOrder(all: seq<Advice>): seq<string> {
    if all == [] then [] else
    var before := JobOrder(all[..|all| - 1]);
    var job := all[|all| - 1].job;
    before + if job == "" || job in before then [] else [job]
  }

  function Entries(items: seq<Advice>): seq<Block> { seq(|items|, i requires 0 <= i < |items| => Entry(items[i])) }

  function Groups(all: seq<Advice>, jobs: seq<string>): seq<Block> {
    if jobs == [] then [] else
    var job := jobs[|jobs| - 1];
    Groups(all, jobs[..|jobs| - 1]) + ([Heading(job)] + Entries(About(all, job)))
  }

  function Blocks(all: seq<Advice>): seq<Block> { Entries(About(all, "")) + Groups(all, JobOrder(all)) }

  function Show(blocks: seq<Block>): string {
    if blocks == [] then "" else Show(blocks[..|blocks| - 1]) + ShowBlock(blocks[|blocks| - 1])
  }

  function ShowBlock(b: Block): string {
    match b
    case Heading(job) => JobHeading(job)
    case Entry(a) => Item(a)
  }

  function Rendered(pipeline: int, all: seq<Advice>): string {
    if all == [] then CLEAN else Header(pipeline) + Show(Blocks(all))
  }

  // ---- the loops --------------------------------------------------------------------

  method CollectJobs(all: seq<Advice>) returns (order: seq<string>)
    ensures order == JobOrder(all)
    ensures (forall job :: job in order <==> Named(all, job)) && Distinct(order) && ByFirstName(all, order)
  {
    hide Named, Distinct, ByFirstName;
    var seen: set<string> := {};
    order := [];
    for i := 0 to |all|
      invariant order == JobOrder(all[..i])
      invariant forall job :: job in seen <==> job in order
    {
      assert all[..i + 1][..i] == all[..i];
      var job := all[i].job;
      if job == "" || job in seen {
        continue;
      }
      seen := seen + {job};
      order := order + [job];
    }
    assert all[..|all|] == all;
    JobOrderIsRightThroughout(all);
  }

  /** Writes the advice about one job after what is there. */
  method WriteAbout(b: string, all: seq<Advice>, job: string) returns (r: string)
    ensures r == b + Show(Entries(About(all, job)))
  {
    hide Item, JobHeading, About, Show;
    r := b;
    NothingAbout(job);
    for i := 0 to |all|
      invariant r == b + Show(Entries(About(all[..i], job)))
    {
      assert all[..i + 1] == all[..i] + [all[i]];
      AboutSnoc(all[..i], all[i], job);
      ghost var before := About(all[..i], job);
      if all[i].job == job {
        assert Entries(before + [all[i]]) == Entries(before) + [Entry(all[i])];
        ShowSnoc(Entries(before), Entry(all[i]));
        r := r + Item(all[i]);
      } else {
        assert before + [] == before;
      }
    }
    assert all[..|all|] == all;
  }

  lemma NothingAbout(job: string)
    ensures Show(Entries(About([], job))) == ""
  {
    assert Entries([]) == [];
  }

  method Render(pipeline: int, all: seq<Advice>) returns (b: string)
    ensures b == Rendered(pipeline, all)
  {
    hide Item, JobHeading, About, Show, Header, CLEAN, JobOrder, Groups;
    if |all| == 0 {
      return CLEAN;
    }
    b := Header(pipeline);
    b := WriteAbout(b, all, "");
    var order := CollectJobs(all);
    ghost var wide := Entries(About(all, ""));
    GroupsNone(all);
    assert wide + [] == wide;
    for i := 0 to |order|
      invariant b == Header(pipeline) + Show(wide + Groups(all, order[..i]))
    {
      var job := order[i];
      b := b + JobHeading(job);
      b := WriteAbout(b, all, job);
      ShowGroup(all, wide, order[..i], job);
      assert order[..i + 1] == order[..i] + [job];
    }
    assert order[..|order|] == order;
  }

  lemma GroupsNone(all: seq<Advice>)
    ensures Groups(all, []) == []
  {
  }

  lemma GroupsSnoc(all: seq<Advice>, jobs: seq<string>, job: string)
    ensures Groups(all, jobs + [job]) == Groups(all, jobs) + ([Heading(job)] + Entries(About(all, job)))
  {
    assert (jobs + [job])[..|jobs|] == jobs;
  }

  lemma ShowGroup(all: seq<Advice>, wide: seq<Block>, jobs: seq<string>, job: string)
    ensures Show(wide + Groups(all, jobs + [job])) ==
            Show(wide + Groups(all, jobs)) + JobHeading(job) + Show(Entries(About(all, job)))
  {
    hide Show, About, Groups;
    var before := wide + Groups(all, jobs);
    var entries := Entries(About(all, job));
    GroupsSnoc(all, jobs, job);
    assert wide + Groups(all, jobs + [job]) == before + [Heading(job)] + entries;
    ShowSnoc(before, Heading(job));
    ShowCat(before + [Heading(job)], entries);
  }

  lemma ShowSnoc(blocks: seq<Block>, last: Block)
    ensures Show(blocks + [last]) == Show(blocks) + ShowBlock(last)
  {
    assert (blocks + [last])[..|blocks|] == blocks;
  }

  lemma {:induction false} ShowCat(a: seq<Block>, b: seq<Block>)
    ensures Show(a + b) == Show(a) + Show(b)
  {
    hide ShowBlock;
    if b == [] {
      assert a + b == a;
    } else {
      var front, last := b[..|b| - 1], b[|b| - 1];
      assert a + b == (a + front) + [last];
      assert b == front + [last];
      ShowCat(a, front);
      ShowSnoc(a + front, last);
      ShowSnoc(front, last);
    }
  }

  // ---- the grouping is stable and loses nothing -----------------------------------------

  function Items(blocks: seq<Block>): seq<Advice> {
    if blocks == [] then [] else
    var last := blocks[|blocks| - 1];
    Items(blocks[..|blocks| - 1]) + if last.Entry? then [last.a] else []
  }

  lemma ItemsSnoc(blocks: seq<Block>, last: Block)
    ensures Items(blocks + [last]) == Items(blocks) + if last.Entry? then [last.a] else []
  {
    assert (blocks + [last])[..|blocks|] == blocks;
  }

  lemma {:induction false} ItemsCat(a: seq<Block>, b: seq<Block>)
    ensures Items(a + b) == Items(a) + Items(b)
  {
    if b == [] {
      assert a + b == a;
    } else {
      var front, last := b[..|b| - 1], b[|b| - 1];
      assert a + b == (a + front) + [last];
      assert b == front + [last];
      ItemsCat(a, front);
      ItemsSnoc(a + front, last);
      ItemsSnoc(front, last);
    }
  }

  lemma {:induction false} ItemsOfEntries(items: seq<Advice>)
    ensures Items(Entries(items)) == items
  {
    if items != [] {
      var front := items[..|items| - 1];
      assert Entries(items) == Entries(front) + [Entry(items[|items| - 1])];
      ItemsOfEntries(front);
      ItemsSnoc(Entries(front), Entry(items[|items| - 1]));
      assert items == front + [items[|items| - 1]];
    }
  }

  lemma AboutSnoc(all: seq<Advice>, a: Advice, job: string)
    ensures About(all + [a], job) == About(all, job) + if a.job == job then [a] else []
  {
    assert (all + [a])[..|all|] == all;
  }

  lemma {:induction false} AboutCat(a: seq<Advice>, b: seq<Advice>, job: string)
    ensures About(a + b, job) == About(a, job) + About(b, job)
  {
    if b == [] {
      assert a + b == a;
    } else {
      var front, last := b[..|b| - 1], b[|b| - 1];
      assert a + b == (a + front) + [last];
      assert b == front + [last];
      AboutCat(a, front, job);
      AboutSnoc(a + front, last, job);
      AboutSnoc(front, last, job);
    }
  }

  lemma {:induction false} AboutAbout(all: seq<Advice>, k: string, job: string)
    ensures About(About(all, k), job) == if k == job then About(all, job) else []
  {
    if all != [] {
      var front, a := all[..|all| - 1], all[|all| - 1];
      AboutAbout(front, k, job);
      if a.job == k {
        AboutSnoc(About(front, k), a, job);
      } else {
        assert About(all, k) == About(front, k);
      }
    }
  }

  predicate Distinct(jobs: seq<string>) {
    jobs == [] || (jobs[|jobs| - 1] !in jobs[..|jobs| - 1] && Distinct(jobs[..|jobs| - 1]))
  }

  ghost predicate Named(all: seq<Advice>, job: string) {
    job != "" && exists i | 0 <= i < |all| :: all[i].job == job
  }

  lemma NamedSnoc(front: seq<Advice>, last: Advice, job: string)
    ensures Named(front + [last], job) <==> Named(front, job) || (job != "" && last.job == job)
  {
    var all := front + [last];
    assert forall i | 0 <= i < |front| :: all[i] == front[i];
    assert all[|front|] == last;
  }

  lemma OrderSnoc(front: seq<Advice>, last: Advice)
    ensures var order := JobOrder(front);
            JobOrder(front + [last]) ==
            if last.job == "" || last.job in order then order else order + [last.job]
  {
    assert (front + [last])[..|front|] == front;
  }

  lemma DistinctSnoc(jobs: seq<string>, job: string)
    requires Distinct(jobs) && job !in jobs
    ensures Distinct(jobs + [job])
  {
    assert (jobs + [job])[..|jobs|] == jobs;
  }

  lemma {:induction false} JobOrderIsRight(all: seq<Advice>)
    ensures forall job :: job in JobOrder(all) <==> Named(all, job)
    ensures Distinct(JobOrder(all))
  {
    hide JobOrder, Named, Distinct;
    if all == [] {
      NobodyNamed();
    } else {
      var front, last := all[..|all| - 1], all[|all| - 1];
      assert all == front + [last];
      JobOrderIsRight(front);
      OrderSnoc(front, last);
      forall job
        ensures job in JobOrder(all) <==> Named(all, job)
      {
        NamedSnoc(front, last, job);
        NamedIsNotEmpty(front, job);
      }
      if last.job != "" && last.job !in JobOrder(front) {
        DistinctSnoc(JobOrder(front), last.job);
      }
    }
  }

  lemma NobodyNamed()
    ensures JobOrder([]) == [] && Distinct([]) && forall job :: !Named([], job)
  {
  }

  /** The job is named at i for the first time. */
  predicate FirstNamed(all: seq<Advice>, i: int, job: string) {
    0 <= i < |all| && all[i].job == job && forall k | 0 <= k < i :: all[k].job != job
  }

  lemma FirstNamedSnoc(front: seq<Advice>, last: Advice, i: int, job: string)
    requires FirstNamed(front + [last], i, job)
    ensures if Named(front, job) then FirstNamed(front, i, job) else job == "" || i == |front|
  {
    var all := front + [last];
    assert forall k | 0 <= k < |front| :: all[k] == front[k];
  }

  /** The headings follow the order in which the jobs are first named. */
  lemma {:induction false} JobOrderIsByFirstName(all: seq<Advice>, a: nat, b: nat, i: int, k: int)
    requires a < b < |JobOrder(all)|
    requires FirstNamed(all, i, JobOrder(all)[a]) && FirstNamed(all, k, JobOrder(all)[b])
    ensures i < k
  {
    hide JobOrder, Named, FirstNamed, Distinct;
    if all == [] {
      NobodyNamed();
    } else {
      var front, last := all[..|all| - 1], all[|all| - 1];
      assert all == front + [last];
      var order, before := JobOrder(all), JobOrder(front);
      OrderSnoc(front, last);
      JobOrderIsRight(all);
      JobOrderIsRight(front);
      assert order[a] in order && order[b] in order && before[a] in before;
      FirstNamedSnoc(front, last, i, order[a]);
      FirstNamedSnoc(front, last, k, order[b]);
      FirstNamedInside(front, i, order[a]);
      if b < |before| {
        assert before[b] in before;
        JobOrderIsByFirstName(front, a, b, i, k);
      } else {
        assert order[b] == last.job && last.job !in before;
        NamedIsNotEmpty(all, order[b]);
      }
    }
  }

  ghost predicate ByFirstName(all: seq<Advice>, order: seq<string>) {
    forall a, b, i, k | 0 <= a < b < |order| && FirstNamed(all, i, order[a]) && FirstNamed(all, k, order[b]) :: i < k
  }

  lemma JobOrderIsRightThroughout(all: seq<Advice>)
    ensures var order := JobOrder(all);
            (forall job :: job in order <==> Named(all, job)) && Distinct(order) && ByFirstName(all, order)
  {
    hide JobOrder, Named, Distinct, FirstNamed;
    JobOrderIsRight(all);
    var order := JobOrder(all);
    forall a, b, i, k | 0 <= a < b < |order| && FirstNamed(all, i, order[a]) && FirstNamed(all, k, order[b])
      ensures i < k
    {
      JobOrderIsByFirstName(all, a, b, i, k);
    }
  }

  lemma NamedIsNotEmpty(all: seq<Advice>, job: string)
    ensures Named(all, job) ==> job != ""
  {
  }

  lemma FirstNamedInside(all: seq<Advice>, i: int, job: string)
    requires FirstNamed(all, i, job)
    ensures i < |all|
  {
  }

  lemma ItemsOfGroup(all: seq<Advice>, jobs: seq<string>, job: string)
    ensures Items(Groups(all, jobs + [job])) == Items(Groups(all, jobs)) + About(all, job)
  {
    hide Items, Groups, About;
    var before := Groups(all, jobs);
    var entries := Entries(About(all, job));
    GroupsSnoc(all, jobs, job);
    assert before + ([Heading(job)] + entries) == (before + [Heading(job)]) + entries;
    ItemsCat(before + [Heading(job)], entries);
    ItemsSnoc(before, Heading(job));
    ItemsOfEntries(About(all, job));
  }

  lemma AboutOneMoreGroup(all: seq<Advice>, jobs: seq<string>, k: string, job: string)
    ensures About(Items(Groups(all, jobs + [k])), job) ==
            About(Items(Groups(all, jobs)), job) + if k == job then About(all, job) else []
  {
    hide Items, Groups, About;
    ItemsOfGroup(all, jobs, k);
    AboutCat(Items(Groups(all, jobs)), About(all, k), job);
    AboutAbout(all, k, job);
  }

  lemma AboutNoGroups(all: seq<Advice>, job: string)
    ensures About(Items(Groups(all, [])), job) == []
  {
  }

  /** The groups hold the advice about their jobs and no other. */
  lemma {:induction false} AboutGroups(all: seq<Advice>, jobs: seq<string>, job: string)
    requires Distinct(jobs)
    ensures About(Items(Groups(all, jobs)), job) == if job in jobs then About(all, job) else []
  {
    hide Items, Groups, About;
    if jobs == [] {
      AboutNoGroups(all, job);
    } else {
      var front, k := jobs[..|jobs| - 1], jobs[|jobs| - 1];
      assert jobs == front + [k];
      AboutGroups(all, front, job);
      AboutOneMoreGroup(all, front, k, job);
      assert job in jobs <==> job in front || job == k;
      var about := About(all, job);
      assert about + [] == about && [] + about == about;
    }
  }

  /** For each job, and for the pipeline, the text shows its advice, all of it and in input order. */
  lemma GroupingIsStable(all: seq<Advice>, job: string)
    ensures About(Items(Blocks(all)), job) == About(all, job)
  {
    var wide := Entries(About(all, ""));
    var groups := Groups(all, JobOrder(all));
    JobOrderIsRight(all);
    ItemsCat(wide, groups);
    ItemsOfEntries(About(all, ""));
    AboutCat(About(all, ""), Items(groups), job);
    AboutAbout(all, "", job);
    AboutGroups(all, JobOrder(all), job);
    if job != "" && job !in JobOrder(all) {
      NobodyAbout(all, job);
    }
  }

  lemma {:induction false} NobodyAbout(all: seq<Advice>, job: string)
    requires forall i | 0 <= i < |all| :: all[i].job != job
    ensures About(all, job) == []
  {
    if all != [] {
      NobodyAbout(all[..|all| - 1], job);
    }
  }

  lemma {:induction false} CountAbout(all: seq<Advice>, a: Advice)
    ensures multiset(About(all, a.job))[a] == multiset(all)[a]
  {
    if all != [] {
      var front, last := all[..|all| - 1], all[|all| - 1];
      CountAbout(front, a);
      assert all == front + [last];
    }
  }

  /** Every item is shown exactly once. */
  lemma GroupingIsPermutation(all: seq<Advice>)
    ensures multiset(Items(Blocks(all))) == multiset(all)
  {
    var shown := Items(Blocks(all));
    forall a: Advice
      ensures multiset(shown)[a] == multiset(all)[a]
    {
      GroupingIsStable(all, a.job);
      CountAbout(shown, a);
      CountAbout(all, a);
    }
  }

  /** A job's heading follows the groups of the jobs before it, and its advice follows its heading. */
  lemma {:induction false} GroupStandsTogether(all: seq<Advice>, jobs: seq<string>, k: nat)
    requires k < |jobs|
    ensures Groups(all, jobs[..k]) + ([Heading(jobs[k])] + Entries(About(all, jobs[k]))) <= Groups(all, jobs)
  {
    hide Groups, Entries, About;
    var front, last := jobs[..|jobs| - 1], jobs[|jobs| - 1];
    assert jobs == front + [last];
    GroupsSnoc(all, front, last);
    if k < |front| {
      GroupStandsTogether(all, front, k);
      assert front[..k] == jobs[..k];
    } else {
      assert jobs[..k] == front;
    }
  }

  // ---- the text -------------------------------------------------------------------------------

  /** A body is shown without the line feeds at its end, and with all the rest. */
  lemma {:induction false} TrimFeedsIs(s: string)
    ensures TrimFeeds(s) <= s && forall i | |TrimFeeds(s)| <= i < |s| :: s[i] == '\n'
    ensures var t := TrimFeeds(s); t == "" || t[|t| - 1] != '\n'
  {
    if s != "" && s[|s| - 1] == '\n' {
      TrimFeedsIs(s[..|s| - 1]);
    }
  }

  /** The items' titles and bodies, in order. */
  function Texts(items: seq<Advice>): seq<string> {
    seq(|items|, i requires 0 <= i < |items| =>
      "**" + items[i].title + "**\n\n" + TrimFeeds(items[i].body) + "\n\n")
  }

  /** Each job's heading with the texts of its items. */
  function GroupTexts(all: seq<Advice>, jobs: seq<string>): seq<string> {
    seq(|jobs|, k requires 0 <= k < |jobs| => "#### `" + jobs[k] + "`\n\n" + Concat(Texts(About(all, jobs[k]))))
  }

  lemma TextsSnoc(items: seq<Advice>, a: Advice)
    ensures Entries(items + [a]) == Entries(items) + [Entry(a)]
    ensures Texts(items + [a]) == Texts(items) + ["**" + a.title + "**\n\n" + TrimFeeds(a.body) + "\n\n"]
    ensures ShowBlock(Entry(a)) == "**" + a.title + "**\n\n" + TrimFeeds(a.body) + "\n\n"
  {
    hide TrimFeeds;
  }

  lemma NoTexts(all: seq<Advice>)
    ensures Show(Entries([])) == "" && Texts([]) == []
    ensures Show(Groups(all, [])) == "" && GroupTexts(all, []) == [] && Concat([]) == ""
  {
  }

  lemma {:induction false} ShowEntries(items: seq<Advice>)
    ensures Show(Entries(items)) == Concat(Texts(items))
  {
    hide TrimFeeds, Show, Concat, Texts, Entries, ShowBlock;
    if items == [] {
      NoTexts([]);
    } else {
      var front, last := items[..|items| - 1], items[|items| - 1];
      assert items == front + [last];
      ShowEntries(front);
      TextsSnoc(front, last);
      ShowSnoc(Entries(front), Entry(last));
      ConcatSnoc(Texts(front), ShowBlock(Entry(last)));
    }
  }

  lemma GroupTextsSnoc(all: seq<Advice>, jobs: seq<string>, job: string)
    ensures GroupTexts(all, jobs + [job]) ==
            GroupTexts(all, jobs) + ["#### `" + job + "`\n\n" + Concat(Texts(About(all, job)))]
    ensures Show([Heading(job)]) == "#### `" + job + "`\n\n"
  {
    hide About, Texts, Concat;
    assert [Heading(job)][..0] == [];
  }

  lemma {:induction false} ShowGroups(all: seq<Advice>, jobs: seq<string>)
    ensures Show(Groups(all, jobs)) == Concat(GroupTexts(all, jobs))
  {
    hide About, Texts, Entries, Show, Concat, Groups, GroupTexts;
    if jobs == [] {
      NoTexts(all);
    } else {
      var front, job := jobs[..|jobs| - 1], jobs[|jobs| - 1];
      var items := About(all, job);
      assert jobs == front + [job];
      ShowGroups(all, front);
      GroupsSnoc(all, front, job);
      GroupTextsSnoc(all, front, job);
      ShowCat(Groups(all, front), [Heading(job)] + Entries(items));
      ShowCat([Heading(job)], Entries(items));
      ShowEntries(items);
      ConcatSnoc(GroupTexts(all, front), "#### `" + job + "`\n\n" + Concat(Texts(items)));
    }
  }

  /** The whole text: a remark if there is nothing to say; else the heading, the pipeline's items, and
      then, for each job in the order of first appearance, its heading and its items. */
  lemma TextIs(pipeline: int, all: seq<Advice>)
    ensures all == [] ==> Rendered(pipeline, all) == "You are all good dude!"
    ensures all != [] ==>
              Rendered(pipeline, all) ==
              "### Advice for pipeline #" + DecInt(pipeline) + "\n\n" +
              (Concat(Texts(About(all, ""))) + Concat(GroupTexts(all, JobOrder(all))))
  {
    hide About, JobOrder, Texts, GroupTexts, Groups, Entries, Show;
    ShowCat(Entries(About(all, "")), Groups(all, JobOrder(all)));
    ShowEntries(About(all, ""));
    ShowGroups(all, JobOrder(all));
  }
}
