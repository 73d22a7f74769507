/** Which partition of an image a share is served, and when two shares that
    choose theirs differently are served different ones. */
module Partitions {
  import opened Wrappers
  import opened Access
  import opened Overlap

  // A partition that is there, in the table's order: its name and its id, as the
  // table has them, either of them perhaps not set, and its length.
  datatype Partition = Partition(name: string, uuid: string, length: int)

  // A name and an id belong to one partition; case makes no other id.
  ghost predicate ValidTable(table: seq<Partition>) {
    && (forall i, j :: 0 <= i < j < |table| && table[i].name != "" ==> table[i].name != table[j].name)
    && (forall i, j :: 0 <= i < j < |table| && table[i].uuid != "" ==> Lower(table[i].uuid) != Lower(table[j].uuid))
  }

  // Numbers count from 1; a name or an id that was chosen by is not empty, and
  // an id is in lower case.
  predicate ValidChoice(c: Choice) {
    match c case Number(n) => n >= 1 case Label(s) => s != "" case UUID(u) => u != "" && Lower(u) == u
  }

  predicate Answers(p: Partition, c: Choice) {
    match c case Number(_) => false case Label(s) => p.name == s case UUID(u) => Lower(p.uuid) == Lower(u)
  }

  function FirstOf(table: seq<Partition>, c: Choice): (i: Option<nat>)
    ensures i.Some? ==> i.value < |table| && Answers(table[i.value], c) && forall j :: 0 <= j < i.value ==> !Answers(table[j], c)
    ensures i.None? ==> forall j :: 0 <= j < |table| ==> !Answers(table[j], c)
  {
    if table == [] then None
    else if Answers(table[0], c) then Some(0)
    else match FirstOf(table[1..], c) case None => None case Some(i) => Some(i + 1)
  }

  function Chosen(table: seq<Partition>, c: Choice): (i: Option<nat>)
    ensures i.Some? ==> i.value < |table|
  {
    match c
    case Number(n) => if 1 <= n <= |table| then Some(n - 1) else None
    case _ => FirstOf(table, c)
  }

  // The partition a choice is served, when there is one and it is not empty.
  function Select(table: seq<Partition>, c: Choice): Option<nat> {
    match Chosen(table, c) case None => None case Some(i) => if table[i].length <= 0 then None else Some(i)
  }

  predicate SameMeans(c: Choice, d: Choice) {
    (c.Number? && d.Number?) || (c.Label? && d.Label?) || (c.UUID? && d.UUID?)
  }

  ghost predicate NeverShared(c: Choice, d: Choice) {
    forall table :: ValidTable(table) && Select(table, c).Some? ==> Select(table, c) != Select(table, d)
  }

  // A table in which the two choices, made by different means, meet.
  function Meeting(c: Choice, d: Choice): (table: seq<Partition>) {
    var name := if c.Label? then c.text else if d.Label? then d.text else "";
    var uuid := if c.UUID? then c.lower else if d.UUID? then d.lower else "";
    var at: int := if c.Number? then c.n - 1 else if d.Number? then d.n - 1 else 0;
    seq(if at < 0 then 0 else at, i => BLANK) + [Partition(name, uuid, 1)]
  }

  const BLANK := Partition("", "", 1)

  // Behind blank partitions, what answers a choice is the one it finds.
  lemma FoundBehindBlanks(table: seq<Partition>, c: Choice)
    requires ValidChoice(c) && table != [] && table[|table| - 1].length == 1
    requires forall i :: 0 <= i < |table| - 1 ==> table[i] == BLANK
    requires if c.Number? then c.n == |table| else Answers(table[|table| - 1], c)
    ensures Select(table, c) == Some(|table| - 1)
  {
    if !c.Number? { assert Answers(table[|table| - 1], c); }
  }

  lemma MeetingMeets(c: Choice, d: Choice)
    requires ValidChoice(c) && ValidChoice(d) && !SameMeans(c, d)
    ensures var table := Meeting(c, d); ValidTable(table) && Select(table, c).Some? && Select(table, c) == Select(table, d)
  {
    FoundBehindBlanks(Meeting(c, d), c);
    FoundBehindBlanks(Meeting(c, d), d);
  }

  // Two shares that chose differently are served different partitions, whatever
  // the image's table, exactly when they chose by the same means.
  lemma ApartBySameMeans(c: Choice, d: Choice)
    requires ValidChoice(c) && ValidChoice(d) && c != d
    ensures NeverShared(c, d) <==> SameMeans(c, d)
  {
    if !SameMeans(c, d) { MeetingMeets(c, d); }
  }

  // What the check of a share's own block lets it choose.
  predicate ValidBlock(b: Block) {
    b.partition.Some? ==> b.partition.value >= 1
  }

  lemma BlocksChooseValidly(b: Block)
    requires ValidBlock(b) && ChoosesPartition(b).Some?
    ensures ValidChoice(ChoosesPartition(b).value)
  {
    assert |Lower(b.partUUID)| == |b.partUUID| && Lower(Lower(b.partUUID)) == Lower(b.partUUID);
  }

  // Over every sequence of changes, two shares that reach one path are of one
  // image and chose its partition; and what they are served is never the same
  // partition, whatever the image holds, exactly when they chose by the same means.
  lemma ServedApart(files: seq<Block>, start: seq<Block>, lists: seq<seq<Block>>, i: nat, j: nat, q: Path)
    requires AllValid(files + start) && NoneHeld(files + start, files + start)
    requires forall n :: 0 <= n < |lists| ==> AllValid(lists[n])
    requires var all := files + Exec(files, start, lists);
      && i < |all| && j < |all| && !SameName(all[i].name, all[j].name) && Reaches(all[i], q) && Reaches(all[j], q)
      && ValidBlock(all[i]) && ValidBlock(all[j])
    ensures var all := files + Exec(files, start, lists);
      var c, d := ChoosesPartition(all[i]), ChoosesPartition(all[j]);
      c.Some? && d.Some? && all[i].source == all[j].source && (NeverShared(c.value, d.value) <==> SameMeans(c.value, d.value))
  {
    hide Exec, NeverShared;
    NoPathTwice(files, start, lists, i, j, q);
    var all := files + Exec(files, start, lists);
    BlocksChooseValidly(all[i]);
    BlocksChooseValidly(all[j]);
    ApartBySameMeans(ChoosesPartition(all[i]).value, ChoosesPartition(all[j]).value);
  }

  function ByNumber(): Block {
    Block("a", false, ["disk.img"], Some(2), "", "")
  }

  function ByLabel(): Block {
    Block("b", false, ["disk.img"], None, "data", "")
  }

  // A number and a label: both shares are accepted, and both are served the
  // second partition.
  lemma NumberAgainstLabel()
    ensures NoneHeld([ByNumber(), ByLabel()], [ByNumber(), ByLabel()])
    ensures var table := [Partition("boot", "", 1), Partition("data", "", 1)];
      && ValidTable(table)
      && Select(table, ChoosesPartition(ByNumber()).value) == Select(table, ChoosesPartition(ByLabel()).value) == Some(1)
  {
    var table := [Partition("boot", "", 1), Partition("data", "", 1)];
    assert Apart(ByNumber(), ByLabel()) && Apart(ByLabel(), ByNumber());
    assert table[1..][0] == table[1];
    assert "boot"[0] == 'b' && "data"[0] == 'd';
    SelfSame("a");
    SelfSame("b");
  }

  lemma SelfSame(name: string)
    ensures SameName(name, name)
  {
  }
}
