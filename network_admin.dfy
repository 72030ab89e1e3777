/**
 * The fault-injection console of the simulation (server/server.go): the
 * array logic of the split, heal and lag handlers, with the HTTP request
 * and response reduced to the form values they read and the outcome they
 * report.
 *
 * Every process owns one row of the cluster's fault matrix: `lag[j]` and
 * `packetloss[j]` are what it applies to the messages it sends to process
 * j. The handlers overwrite entries of those rows in place.
 */
module NetworkAdmin {
  import opened Wrappers
  import opened GoText
  import opened Protocol

  /** How a handler ends: the redirect to "/", one of the three 400 errors, or a runtime panic. */
  datatype Response = Redirect | BadCount | BadLeft | BadRight | IndexPanic

  // ---------------------------------------------------------------------
  // The fault matrix as values
  // ---------------------------------------------------------------------

  /** A NumProcesses-by-NumProcesses matrix. */
  ghost predicate Square(rows: seq<seq<int>>)
  {
    |rows| == NumProcesses && forall a :: 0 <= a < |rows| ==> |rows[a]| == NumProcesses
  }

  predicate InCluster2(link: (int, int))
  {
    0 <= link.0 < NumProcesses && 0 <= link.1 < NumProcesses
  }

  /** The matrix with entry (a, b) replaced by v; a store outside the matrix changes nothing. */
  function Set(rows: seq<seq<int>>, a: int, b: int, v: int): seq<seq<int>>
  {
    if 0 <= a < |rows| && 0 <= b < |rows[a]| then rows[a := rows[a][b := v]] else rows
  }

  lemma SetSquare(rows: seq<seq<int>>, a: int, b: int, v: int)
    requires Square(rows)
    ensures Square(Set(rows, a, b, v))
  {
  }

  /** The processes as the handlers see them: one wired process per id, each owning its own two arrays, shared with no other. */
  ghost predicate Cluster(ps: seq<Process>)
  {
    && |ps| == NumProcesses
    && (forall i :: 0 <= i < |ps| ==> ps[i].Wired())
    && (forall i, j :: 0 <= i < j < |ps| ==>
          ps[i].network.lag != ps[j].network.lag && ps[i].network.packetloss != ps[j].network.packetloss)
    && (forall i, j :: 0 <= i < |ps| && 0 <= j < |ps| ==> ps[i].network.lag != ps[j].network.packetloss)
  }

  ghost function LossArrays(ps: seq<Process>): set<array<int>>
  {
    set i | 0 <= i < |ps| :: ps[i].network.packetloss
  }

  ghost function LagArrays(ps: seq<Process>): set<array<Duration>>
  {
    set i | 0 <= i < |ps| :: ps[i].network.lag
  }

  /** The loss half of the fault matrix: row i is process i's packetloss array. */
  ghost function LossRows(ps: seq<Process>): (rows: seq<seq<int>>)
    requires Cluster(ps)
    reads LossArrays(ps)
    ensures Square(rows)
  {
    seq(|ps|, i requires 0 <= i < |ps| reads LossArrays(ps) => ps[i].network.packetloss[..])
  }

  /** The lag half of the fault matrix: row i is process i's lag array. */
  ghost function LagRows(ps: seq<Process>): (rows: seq<seq<Duration>>)
    requires Cluster(ps)
    reads LagArrays(ps)
    ensures Square(rows)
  {
    seq(|ps|, i requires 0 <= i < |ps| reads LagArrays(ps) => ps[i].network.lag[..])
  }

  /**
   * The process list Play builds: NewProcess for ids 0, 1, ... in turn. The
   * result is a cluster in the handlers' sense, made of new objects only,
   * every process starts in NewProcess's state and keeps the protocol
   * invariant, and the whole fault matrix starts healthy.
   */
  method NewCluster(now: Time) returns (ps: seq<Process>)
    ensures Cluster(ps)
    ensures forall i :: 0 <= i < |ps| ==>
      && fresh(ps[i]) && fresh(ps[i].network) && fresh(ps[i].network.lag) && fresh(ps[i].network.packetloss)
      && ps[i].id == i && ps[i].Valid() && ps[i].Initial(now)
    ensures LossRows(ps) == Uniform(0) && LagRows(ps) == Uniform(0)
  {
    ps := [];
    for processNum := 0 to NumProcesses
      invariant |ps| == processNum
      invariant forall i :: 0 <= i < |ps| ==>
        && fresh(ps[i]) && fresh(ps[i].network) && fresh(ps[i].network.lag) && fresh(ps[i].network.packetloss)
        && ps[i].id == i && ps[i].Valid() && ps[i].Initial(now)
        && ps[i].network.lag != ps[i].network.packetloss
        && ps[i].network.lag[..] == seq(NumProcesses, _ => 0)
        && ps[i].network.packetloss[..] == seq(NumProcesses, _ => 0)
      invariant forall i, j :: 0 <= i < j < |ps| ==>
        && ps[i].network.lag != ps[j].network.lag && ps[i].network.packetloss != ps[j].network.packetloss
        && ps[i].network.lag != ps[j].network.packetloss && ps[i].network.packetloss != ps[j].network.lag
    {
      var p := new Process.NewProcess(processNum, now);
      ps := ps + [p];
    }
  }

  /** One store into a process's packetloss array. */
  method SetLoss(ps: seq<Process>, a: int, b: int, v: int)
    requires Cluster(ps) && InCluster2((a, b))
    modifies ps[a].network.packetloss
    ensures LossRows(ps) == Set(old(LossRows(ps)), a, b, v)
    ensures unchanged(LagArrays(ps))
  {
    ps[a].network.packetloss[b] := v;
    forall i | 0 <= i < |ps| && i != a
      ensures ps[i].network.packetloss[..] == old(ps[i].network.packetloss[..])
    {
      assert ps[i].network.packetloss != ps[a].network.packetloss;
    }
  }

  /** One store into a process's lag array. */
  method SetLag(ps: seq<Process>, a: int, b: int, v: Duration)
    requires Cluster(ps) && InCluster2((a, b))
    modifies ps[a].network.lag
    ensures LagRows(ps) == Set(old(LagRows(ps)), a, b, v)
    ensures unchanged(LossArrays(ps))
  {
    ps[a].network.lag[b] := v;
    forall i | 0 <= i < |ps| && i != a
      ensures ps[i].network.lag[..] == old(ps[i].network.lag[..])
    {
      assert ps[i].network.lag != ps[a].network.lag;
    }
  }

  // ---------------------------------------------------------------------
  // The partition: cutting every left-right link
  // ---------------------------------------------------------------------

  /** The first n links stay inside the cluster. */
  predicate AllInCluster(links: seq<(int, int)>, n: nat)
    requires n <= |links|
  {
    forall k :: 0 <= k < n ==> InCluster2(links[k])
  }

  lemma AllInClusterStep(links: seq<(int, int)>, n: nat)
    requires n < |links| && AllInCluster(links, n) && InCluster2(links[n])
    ensures AllInCluster(links, n + 1)
  {
  }

  /** Both directions of one link set to v: 100% loss for a split, zero for a heal. */
  function Mark(rows: seq<seq<int>>, link: (int, int), v: int): seq<seq<int>>
  {
    Set(Set(rows, link.0, link.1, v), link.1, link.0, v)
  }

  /** The matrix after marking each of the first n links in turn. */
  function Marked(rows: seq<seq<int>>, links: seq<(int, int)>, n: nat, v: int): seq<seq<int>>
    requires n <= |links|
  {
    if n == 0 then rows else Mark(Marked(rows, links, n - 1, v), links[n - 1], v)
  }

  lemma {:induction false} MarkedSquare(rows: seq<seq<int>>, links: seq<(int, int)>, n: nat, v: int)
    requires Square(rows) && n <= |links|
    ensures Square(Marked(rows, links, n, v))
  {
    if n > 0 {
      var prev := Marked(rows, links, n - 1, v);
      MarkedSquare(rows, links, n - 1, v);
      SetSquare(prev, links[n - 1].0, links[n - 1].1, v);
      SetSquare(Set(prev, links[n - 1].0, links[n - 1].1, v), links[n - 1].1, links[n - 1].0, v);
    }
  }

  /** Whether one of `links` joins a and b, in either direction. */
  predicate Joins(links: seq<(int, int)>, a: int, b: int)
  {
    (a, b) in links || (b, a) in links
  }

  lemma MarkAt(rows: seq<seq<int>>, link: (int, int), v: int, a: int, b: int)
    requires Square(rows) && InCluster2((a, b))
    ensures Mark(rows, link, v)[a][b] == if link == (a, b) || link == (b, a) then v else rows[a][b]
  {
  }

  /** An entry of the marked matrix is v where one of the links joins its two ends and as before elsewhere. */
  lemma {:induction false} MarkedAt(rows: seq<seq<int>>, links: seq<(int, int)>, n: nat, v: int, a: int, b: int)
    requires Square(rows) && n <= |links| && InCluster2((a, b))
    ensures Square(Marked(rows, links, n, v))
    ensures Marked(rows, links, n, v)[a][b] == if Joins(links[..n], a, b) then v else rows[a][b]
  {
    if n > 0 {
      MarkedAt(rows, links, n - 1, v, a, b);
      MarkedSquare(rows, links, n - 1, v);
      MarkAt(Marked(rows, links, n - 1, v), links[n - 1], v, a, b);
      assert links[..n] == links[..n - 1] + [links[n - 1]];
    }
  }

  /** The links the split loops visit, in order: for each left id, its link to each right id. */
  function Pairs(lefts: seq<int>, rights: seq<int>): (links: seq<(int, int)>)
  {
    if lefts == [] then []
    else Pairs(lefts[..|lefts| - 1], rights) + CrossRow(lefts[|lefts| - 1], rights)
  }

  /** The links from one left id to each right id, in order. */
  function CrossRow(left: int, rights: seq<int>): (links: seq<(int, int)>)
    ensures |links| == |rights|
    ensures forall k :: 0 <= k < |rights| ==> links[k] == (left, rights[k])
  {
    seq(|rights|, k requires 0 <= k < |rights| => (left, rights[k]))
  }

  /** Pairs visits exactly the left-right combinations. */
  lemma {:induction false} PairsExactly(lefts: seq<int>, rights: seq<int>, a: int, b: int)
    ensures (a, b) in Pairs(lefts, rights) <==> a in lefts && b in rights
  {
    if lefts != [] {
      var init := lefts[..|lefts| - 1];
      PairsExactly(init, rights, a, b);
      assert lefts == init + [lefts[|lefts| - 1]];
      if a in lefts && b in rights && a !in init {
        var j :| 0 <= j < |rights| && rights[j] == b;
        assert CrossRow(a, rights)[j] == (a, b);
      }
    }
  }

  /**
   * After a split that runs to completion, the loss between a and b is 100
   * exactly when one is a left id and the other a right id; every other
   * entry keeps its value.
   */
  lemma SplitCutsExactly(rows: seq<seq<int>>, lefts: seq<int>, rights: seq<int>, a: int, b: int)
    requires Square(rows) && InCluster2((a, b))
    ensures Square(Marked(rows, Pairs(lefts, rights), |Pairs(lefts, rights)|, 100))
    ensures Marked(rows, Pairs(lefts, rights), |Pairs(lefts, rights)|, 100)[a][b]
            == if (a in lefts && b in rights) || (b in lefts && a in rights) then 100 else rows[a][b]
  {
    var links := Pairs(lefts, rights);
    MarkedAt(rows, links, |links|, 100, a, b);
    assert links[..|links|] == links;
    PairsExactly(lefts, rights, a, b);
    PairsExactly(lefts, rights, b, a);
  }

  /** The links of the first i left ids come first among all the links. */
  lemma {:induction false} PairsPrefix(lefts: seq<int>, rights: seq<int>, i: nat)
    requires i <= |lefts|
    ensures Pairs(lefts[..i], rights) <= Pairs(lefts, rights)
    decreases |lefts|
  {
    if i < |lefts| {
      var init := lefts[..|lefts| - 1];
      assert init[..i] == lefts[..i];
      PairsPrefix(init, rights, i);
    } else {
      assert lefts[..i] == lefts;
    }
  }

  /** The two stores of one link: 100% loss from left to right, then from right to left. */
  method CutLink(ps: seq<Process>, left: int, right: int)
    requires Cluster(ps) && InCluster2((left, right))
    modifies LossArrays(ps)
    ensures LossRows(ps) == Mark(old(LossRows(ps)), (left, right), 100)
    ensures unchanged(LagArrays(ps))
  {
    SetLoss(ps, left, right, 100);
    SetLoss(ps, right, left, 100);
  }

  lemma PairsGrow(lefts: seq<int>, rights: seq<int>, i: nat)
    requires i < |lefts|
    ensures Pairs(lefts[..i + 1], rights) == Pairs(lefts[..i], rights) + CrossRow(lefts[i], rights)
  {
    assert lefts[..i + 1][..i] == lefts[..i];
  }

  /** The links of the i-th left id follow those of the ids before it. */
  lemma PairsRow(lefts: seq<int>, rights: seq<int>, i: nat, links: seq<(int, int)>, n: nat)
    requires i < |lefts| && links == Pairs(lefts, rights) && n == |Pairs(lefts[..i], rights)|
    ensures |Pairs(lefts[..i + 1], rights)| == n + |rights| <= |links|
    ensures forall j :: 0 <= j < |rights| ==> links[n + j] == (lefts[i], rights[j])
  {
    PairsGrow(lefts, rights, i);
    PairsPrefix(lefts, rights, i + 1);
    RowInside(Pairs(lefts[..i], rights), lefts[i], rights, Pairs(lefts[..i + 1], rights), links, n);
  }

  /** A row of links that follows `before` inside a prefix of `all` sits at |before| in `all`. */
  lemma RowInside(before: seq<(int, int)>, left: int, rights: seq<int>, upto: seq<(int, int)>, all: seq<(int, int)>, n: nat)
    requires upto == before + CrossRow(left, rights) && upto <= all && n == |before|
    ensures |upto| == n + |rights| <= |all|
    ensures forall j :: 0 <= j < |rights| ==> all[n + j] == (left, rights[j])
  {
    forall j | 0 <= j < |rights|
      ensures all[n + j] == (left, rights[j])
    {
      assert upto[n + j] == CrossRow(left, rights)[j];
    }
  }

  /**
   * The loss matrix `after` is `before` with the links between `lefts` and
   * `rights` cut in loop order up to the first one that leaves the cluster;
   * `completed` says whether there was none.
   */
  ghost predicate SplitApplied(before: seq<seq<int>>, after: seq<seq<int>>, lefts: seq<int>, rights: seq<int>, completed: bool)
  {
    var links := Pairs(lefts, rights);
    var k := FirstStray(links);
    && after == Marked(before, links, k, 100)
    && (completed <==> k == |links|)
  }

  // ---------------------------------------------------------------------
  // Parsing the two id lists
  // ---------------------------------------------------------------------

  /** The index of the first piece that does not parse, or the length when all do. */
  function FirstUnparsable(pieces: seq<string>): (k: nat)
    ensures k <= |pieces|
  {
    if pieces == [] || !Parses(pieces[0]) then 0 else 1 + FirstUnparsable(pieces[1..])
  }

  predicate AllParse(pieces: seq<string>, n: nat)
    requires n <= |pieces|
  {
    forall i :: 0 <= i < n ==> Parses(pieces[i])
  }

  /** Every piece before the first unparsable one parses, and that one does not. */
  lemma {:induction false} FirstUnparsableShape(pieces: seq<string>)
    ensures AllParse(pieces, FirstUnparsable(pieces))
    ensures FirstUnparsable(pieces) < |pieces| ==> !Parses(pieces[FirstUnparsable(pieces)])
  {
    if pieces != [] && Parses(pieces[0]) {
      FirstUnparsableShape(pieces[1..]);
    }
  }

  /** A failure after a run of successes is the first failure. */
  lemma {:induction false} FirstUnparsableAt(pieces: seq<string>, k: nat)
    requires k <= |pieces| && AllParse(pieces, k) && (k < |pieces| ==> !Parses(pieces[k]))
    ensures FirstUnparsable(pieces) == k
  {
    if k > 0 {
      FirstUnparsableAt(pieces[1..], k - 1);
    }
  }

  /** The index of the first link that leaves the cluster, or the length when none does. */
  function FirstStray(links: seq<(int, int)>): (k: nat)
    ensures k <= |links|
  {
    if links == [] || !InCluster2(links[0]) then 0 else 1 + FirstStray(links[1..])
  }

  /** Every link before the first stray one is in the cluster, and the stray one is not. */
  lemma {:induction false} FirstStrayShape(links: seq<(int, int)>)
    ensures AllInCluster(links, FirstStray(links))
    ensures FirstStray(links) < |links| ==> !InCluster2(links[FirstStray(links)])
  {
    if links != [] && InCluster2(links[0]) {
      FirstStrayShape(links[1..]);
    }
  }

  /** A stray link after a run of links in the cluster is the first stray link. */
  lemma {:induction false} FirstStrayAt(links: seq<(int, int)>, k: nat)
    requires k <= |links| && AllInCluster(links, k) && (k < |links| ==> !InCluster2(links[k]))
    ensures FirstStray(links) == k
  {
    if k > 0 {
      FirstStrayAt(links[1..], k - 1);
    }
  }

  predicate Parses(s: string)
  {
    Atoi(s).err == NoError
  }

  /** What Atoi returns for each piece, error or not. */
  function Values(pieces: seq<string>): (ids: seq<int>)
    ensures |ids| == |pieces|
  {
    if pieces == [] then []
    else Values(pieces[..|pieces| - 1]) + [Atoi(pieces[|pieces| - 1]).value]
  }

  function Zeros(n: nat): (z: seq<int>)
    ensures |z| == n
  {
    seq(n, _ => 0)
  }

  /**
   * The ids slice after parsing `pieces` into a zeroed slice of the same
   * length: parsing stops at the first piece that fails, after storing what
   * Atoi returned for it.
   */
  function ParsedIds(pieces: seq<string>): (ids: seq<int>)
    ensures |ids| == |pieces|
  {
    var f := FirstUnparsable(pieces);
    if f == |pieces| then Values(pieces)
    else Values(pieces[..f + 1]) + Zeros(|pieces| - f - 1)
  }

  /** Entry i of Values is what Atoi returned for piece i. */
  lemma {:induction false} ValuesAt(pieces: seq<string>, i: nat)
    requires i < |pieces|
    ensures Values(pieces)[i] == Atoi(pieces[i]).value
    decreases |pieces|
  {
    if i < |pieces| - 1 {
      var init := pieces[..|pieces| - 1];
      ValuesAt(init, i);
    }
  }

  /**
   * Entry i of the parsed slice is piece i's Atoi value up to and including
   * the first piece that fails, and zero after it.
   */
  lemma ParsedIdsAt(pieces: seq<string>, i: nat)
    requires i < |pieces|
    ensures ParsedIds(pieces)[i] == if i <= FirstUnparsable(pieces) then Atoi(pieces[i]).value else 0
  {
    var f := FirstUnparsable(pieces);
    if f == |pieces| {
      ValuesAt(pieces, i);
    } else if i <= f {
      ValuesAt(pieces[..f + 1], i);
    }
  }

  lemma ParsedStep(pieces: seq<string>, idx: nat)
    requires idx < |pieces|
    ensures (Values(pieces[..idx]) + Zeros(|pieces| - idx))[idx := Atoi(pieces[idx]).value]
            == Values(pieces[..idx + 1]) + Zeros(|pieces| - idx - 1)
  {
    assert pieces[..idx + 1][..idx] == pieces[..idx];
  }

  /**
   * One parse loop of the split handler: the slice starts zeroed, each
   * piece's Atoi value is stored in turn, and the loop gives up with `ok`
   * false at the first piece that does not parse, after storing its value.
   */
  method ParseIds(pieces: seq<string>) returns (ids: seq<int>, ok: bool)
    ensures ids == ParsedIds(pieces)
    ensures ok <==> FirstUnparsable(pieces) == |pieces|
  {
    ids := Zeros(|pieces|);
    assert pieces[..0] == [];
    for idx := 0 to |pieces|
      invariant AllParse(pieces, idx)
      invariant ids == Values(pieces[..idx]) + Zeros(|pieces| - idx)
    {
      var parsed := Atoi(pieces[idx]);
      ParsedStep(pieces, idx);
      ids := ids[idx := parsed.value];
      if parsed.err != NoError {
        FirstUnparsableAt(pieces, idx);
        return ids, false;
      }
    }
    FirstUnparsableAt(pieces, |pieces|);
    assert pieces[..|pieces|] == pieces;
    return ids, true;
  }

  // ---------------------------------------------------------------------
  // The handlers
  // ---------------------------------------------------------------------

  /**
   * The package-level variables the split handler writes: the two parsed id
   * slices and the split flag. Their zero values hold at program start.
   */
  datatype SplitVars = SplitVars(leftIdxs: seq<int>, rightIdxs: seq<int>, split: bool)

  const InitialSplitVars := SplitVars([], [], false)

  /** Where the form-parsing half of the split handler leaves off: the refusal, if any, and the variables. */
  datatype ParseOutcome = ParseOutcome(refused: Option<Response>, vars: SplitVars)

  /**
   * The form-parsing half of the split handler, for a cluster of `count`
   * processes: the count check, then the left ids, then the right ids, each
   * slice zeroed and filled up to the first piece that fails.
   */
  function ParseForm(count: nat, vars: SplitVars, leftStr: string, rightStr: string): (outcome: ParseOutcome)
    ensures outcome.vars.split == vars.split
  {
    var lefts, rights := Split(leftStr), Split(rightStr);
    if |lefts| + |rights| != count then
      ParseOutcome(Some(BadCount), vars)
    else if FirstUnparsable(lefts) < |lefts| then
      ParseOutcome(Some(BadLeft), vars.(leftIdxs := ParsedIds(lefts), rightIdxs := Zeros(|rights|)))
    else if FirstUnparsable(rights) < |rights| then
      ParseOutcome(Some(BadRight), vars.(leftIdxs := Values(lefts), rightIdxs := ParsedIds(rights)))
    else
      ParseOutcome(None, vars.(leftIdxs := Values(lefts), rightIdxs := Values(rights)))
  }

  /**
   * The split goes ahead exactly when the two lists have `count` pieces
   * between them and every piece parses; the id slices then hold the
   * parsed ids, one per piece, in order.
   */
  lemma ParseFormAccepts(count: nat, vars: SplitVars, leftStr: string, rightStr: string)
    ensures var lefts, rights, outcome := Split(leftStr), Split(rightStr), ParseForm(count, vars, leftStr, rightStr);
      && (outcome.refused == None <==>
            |lefts| + |rights| == count && AllParse(lefts, |lefts|) && AllParse(rights, |rights|))
      && (outcome.refused == Some(BadCount) <==> |lefts| + |rights| != count)
      && (outcome.refused == None ==>
            && |outcome.vars.leftIdxs| == |lefts| && |outcome.vars.rightIdxs| == |rights|
            && (forall i :: 0 <= i < |lefts| ==> outcome.vars.leftIdxs[i] == Atoi(lefts[i]).value)
            && (forall i :: 0 <= i < |rights| ==> outcome.vars.rightIdxs[i] == Atoi(rights[i]).value))
  {
    var lefts, rights := Split(leftStr), Split(rightStr);
    FirstUnparsableShape(lefts);
    FirstUnparsableShape(rights);
    forall i | 0 <= i < |lefts| {
      ValuesAt(lefts, i);
    }
    forall i | 0 <= i < |rights| {
      ValuesAt(rights, i);
    }
  }

  /**
   * NetworkSplitHandler without the HTTP layer. The form's "left" and
   * "right" values are split on commas; the request is refused when the
   * two lists do not have |ps| pieces between them; the id slices are
   * reallocated, zeroed, and filled by Atoi, stopping at the first piece
   * that does not parse; then every left-right link is cut in both
   * directions, in loop order, and `split` is set. An id outside the
   * cluster panics at its first store: the stores before it remain.
   */
  method NetworkSplit(ps: seq<Process>, vars: SplitVars, leftStr: string, rightStr: string)
    returns (response: Response, vars': SplitVars)
    requires Cluster(ps)
    modifies LossArrays(ps)
    ensures unchanged(LagArrays(ps))
    ensures var outcome := ParseForm(|ps|, vars, leftStr, rightStr);
      if outcome.refused.Some? then
        response == outcome.refused.value && vars' == outcome.vars && unchanged(LossArrays(ps))
      else
        && (response == Redirect || response == IndexPanic)
        && vars' == outcome.vars.(split := response == Redirect || vars.split)
        && SplitApplied(old(LossRows(ps)), LossRows(ps), vars'.leftIdxs, vars'.rightIdxs, response == Redirect)
  {
    var refused;
    refused, vars' := ParseSides(|ps|, vars, leftStr, rightStr);
    if refused.Some? {
      return refused.value, vars';
    }
    var completed := Partition(ps, vars'.leftIdxs, vars'.rightIdxs);
    if !completed {
      return IndexPanic, vars';
    }
    vars' := vars'.(split := true);
    return Redirect, vars';
  }

  /**
   * The count check and the two parse loops of the split handler. `refused`
   * is the response when the request stops here.
   */
  method ParseSides(count: nat, vars: SplitVars, leftStr: string, rightStr: string)
    returns (refused: Option<Response>, vars': SplitVars)
    ensures ParseOutcome(refused, vars') == ParseForm(count, vars, leftStr, rightStr)
  {
    var leftIdxStrs := Split(leftStr);
    var rightIdxStrs := Split(rightStr);
    vars' := vars;

    if |leftIdxStrs| + |rightIdxStrs| != count {
      return Some(BadCount), vars';
    }

    vars' := vars'.(leftIdxs := Zeros(|leftIdxStrs|), rightIdxs := Zeros(|rightIdxStrs|));

    var ids, ok := ParseIds(leftIdxStrs);
    vars' := vars'.(leftIdxs := ids);
    if !ok {
      return Some(BadLeft), vars';
    }
    ids, ok := ParseIds(rightIdxStrs);
    vars' := vars'.(rightIdxs := ids);
    if !ok {
      return Some(BadRight), vars';
    }
    return None, vars';
  }

  /**
   * The partition loops of the split handler: for each left id, for each
   * right id, both directions of the link go to 100% loss. Returns false
   * when a link leaves the cluster, which panics before its first store.
   */
  method Partition(ps: seq<Process>, lefts: seq<int>, rights: seq<int>) returns (completed: bool)
    requires Cluster(ps)
    modifies LossArrays(ps)
    ensures unchanged(LagArrays(ps))
    ensures SplitApplied(old(LossRows(ps)), LossRows(ps), lefts, rights, completed)
  {
    ghost var rows := LossRows(ps);
    ghost var links := Pairs(lefts, rights);
    ghost var n: nat := 0;
    for i := 0 to |lefts|
      invariant n == |Pairs(lefts[..i], rights)| <= |links|
      invariant AllInCluster(links, n)
      invariant LossRows(ps) == Marked(rows, links, n, 100)
    {
      PairsRow(lefts, rights, i, links, n);
      var rowCompleted;
      rowCompleted, n := CutRow(ps, lefts[i], rights, rows, links, n);
      if !rowCompleted {
        return false;
      }
    }
    assert lefts[..|lefts|] == lefts;
    FirstStrayAt(links, n);
    return true;
  }

  /**
   * The inner partition loop: the links from one left id to each right id,
   * in order, which are the links n, n + 1, ... of the whole split.
   */
  method CutRow(ps: seq<Process>, left: int, rights: seq<int>, ghost rows: seq<seq<int>>, ghost links: seq<(int, int)>, ghost n: nat)
    returns (completed: bool, ghost n': nat)
    requires Cluster(ps)
    requires n + |rights| <= |links| && forall j :: 0 <= j < |rights| ==> links[n + j] == (left, rights[j])
    requires AllInCluster(links, n) && LossRows(ps) == Marked(rows, links, n, 100)
    modifies LossArrays(ps)
    ensures unchanged(LagArrays(ps))
    ensures completed ==> n' == n + |rights| && AllInCluster(links, n') && LossRows(ps) == Marked(rows, links, n', 100)
    ensures !completed ==> FirstStray(links) < |links| && LossRows(ps) == Marked(rows, links, FirstStray(links), 100)
  {
    n' := n;
    for j := 0 to |rights|
      invariant n' == n + j
      invariant AllInCluster(links, n') && LossRows(ps) == Marked(rows, links, n', 100)
    {
      assert links[n + j] == (left, rights[j]);
      var ok;
      ok, n' := CutNext(ps, left, rights[j], rows, links, n');
      if !ok {
        return false, n';
      }
    }
    return true, n';
  }

  /** One pass of the inner partition loop: the link k of the split, or the panic it causes. */
  // `k'` is k + 1 when the link is cut, returned so that the loop counts with it and the solver need not relate k + 1 to Marked itself
  method CutNext(ps: seq<Process>, left: int, right: int, ghost rows: seq<seq<int>>, ghost links: seq<(int, int)>, ghost k: nat)
    returns (ok: bool, ghost k': nat)
    requires Cluster(ps)
    requires k < |links| && links[k] == (left, right)
    requires AllInCluster(links, k) && LossRows(ps) == Marked(rows, links, k, 100)
    modifies LossArrays(ps)
    ensures unchanged(LagArrays(ps))
    ensures ok ==> k' == k + 1 && AllInCluster(links, k') && LossRows(ps) == Marked(rows, links, k', 100)
    ensures !ok ==> FirstStray(links) < |links| && LossRows(ps) == Marked(rows, links, FirstStray(links), 100)
  {
    if !(0 <= left < |ps| && 0 <= right < ps[left].network.packetloss.Length) {
      FirstStrayAt(links, k);
      return false, k;
    }
    CutLink(ps, left, right);
    AllInClusterStep(links, k);
    return true, k + 1;
  }

  // ---------------------------------------------------------------------
  // Healing the network
  // ---------------------------------------------------------------------

  /** Every process id, in order: what both loops of the heal handler run over. */
  const Everyone: seq<int> := seq(NumProcesses, i => i)

  /** The matrix with every entry equal to v. */
  function Uniform(v: int): (rows: seq<seq<int>>)
  {
    seq(NumProcesses, _ => seq(NumProcesses, _ => v))
  }

  /** Marking every link of the cluster, in any matrix, leaves every entry at v. */
  lemma MarkedEveryone(rows: seq<seq<int>>, v: int)
    requires Square(rows)
    ensures Marked(rows, Pairs(Everyone, Everyone), |Pairs(Everyone, Everyone)|, v) == Uniform(v)
  {
    var links := Pairs(Everyone, Everyone);
    var m := Marked(rows, links, |links|, v);
    MarkedSquare(rows, links, |links|, v);
    assert links[..|links|] == links;
    forall a | 0 <= a < NumProcesses
      ensures m[a] == Uniform(v)[a]
    {
      forall b | 0 <= b < NumProcesses
        ensures m[a][b] == v
      {
        MarkedAt(rows, links, |links|, v, a, b);
        assert Everyone[a] == a && Everyone[b] == b;
        PairsExactly(Everyone, Everyone, a, b);
      }
    }
  }

  /** Healing a healed matrix changes nothing: the heal handler is idempotent. */
  lemma HealIdempotent(rows: seq<seq<int>>)
    requires Square(rows)
    ensures var links := Pairs(Everyone, Everyone);
      var healed := Marked(rows, links, |links|, 0);
      Marked(healed, links, |links|, 0) == healed
  {
    MarkedEveryone(rows, 0);
    MarkedEveryone(Uniform(0), 0);
  }

  /** The links of left id `left` in the heal loops: (left, 0), (left, 1), ... in a row. */
  lemma EveryoneRow(left: nat, links: seq<(int, int)>, n: nat)
    requires left < NumProcesses && links == Pairs(Everyone, Everyone) && n == |Pairs(Everyone[..left], Everyone)|
    ensures |Pairs(Everyone[..left + 1], Everyone)| == n + NumProcesses <= |links|
    ensures forall j :: 0 <= j < NumProcesses ==> links[n + j] == (left, j)
  {
    PairsRow(Everyone, Everyone, left, links, n);
  }

  /** The four stores of one pass of the heal loops: lag and loss, in both directions, to zero. */
  method HealLink(ps: seq<Process>, left: int, right: int)
    requires Cluster(ps) && InCluster2((left, right))
    modifies LossArrays(ps), LagArrays(ps)
    ensures LossRows(ps) == Mark(old(LossRows(ps)), (left, right), 0)
    ensures LagRows(ps) == Mark(old(LagRows(ps)), (left, right), 0)
  {
    SetLag(ps, left, right, 0);
    SetLoss(ps, left, right, 0);
    SetLag(ps, right, left, 0);
    SetLoss(ps, right, left, 0);
  }

  /**
   * The inner heal loop: the links from one process to every process, in
   * order, which are the links n, n + 1, ... of the whole heal.
   */
  method HealRow(ps: seq<Process>, left: int, ghost loss: seq<seq<int>>, ghost lag: seq<seq<Duration>>, ghost links: seq<(int, int)>, ghost n: nat)
    returns (ghost n': nat)
    requires Cluster(ps) && 0 <= left < |ps|
    requires n + |ps| <= |links| && forall j :: 0 <= j < |ps| ==> links[n + j] == (left, j)
    requires LossRows(ps) == Marked(loss, links, n, 0) && LagRows(ps) == Marked(lag, links, n, 0)
    modifies LossArrays(ps), LagArrays(ps)
    ensures n' == n + |ps|
    ensures LossRows(ps) == Marked(loss, links, n', 0) && LagRows(ps) == Marked(lag, links, n', 0)
  {
    n' := n;
    for right := 0 to |ps|
      invariant n' == n + right
      invariant LossRows(ps) == Marked(loss, links, n', 0) && LagRows(ps) == Marked(lag, links, n', 0)
    {
      assert links[n + right] == (left, right);
      n' := HealNext(ps, left, right, loss, lag, links, n');
    }
  }

  /** One pass of the inner heal loop: the link k of the heal. */
  // `k'` is k + 1, returned so that the loop counts with it and the solver need not relate k + 1 to Marked itself
  method HealNext(ps: seq<Process>, left: int, right: int, ghost loss: seq<seq<int>>, ghost lag: seq<seq<Duration>>, ghost links: seq<(int, int)>, ghost k: nat)
    returns (ghost k': nat)
    requires Cluster(ps) && InCluster2((left, right))
    requires k < |links| && links[k] == (left, right)
    requires LossRows(ps) == Marked(loss, links, k, 0) && LagRows(ps) == Marked(lag, links, k, 0)
    modifies LossArrays(ps), LagArrays(ps)
    ensures k' == k + 1
    ensures LossRows(ps) == Marked(loss, links, k', 0) && LagRows(ps) == Marked(lag, links, k', 0)
  {
    HealLink(ps, left, right);
    k' := k + 1;
  }

  /**
   * HealNetworkHandler without the HTTP layer: for every pair of processes,
   * in both directions, lag and packet loss go back to zero, leaving both
   * halves of the fault matrix all zero.
   */
  method HealNetwork(ps: seq<Process>)
    requires Cluster(ps)
    modifies LossArrays(ps), LagArrays(ps)
    ensures LossRows(ps) == Uniform(0) && LagRows(ps) == Uniform(0)
  {
    ghost var loss := LossRows(ps);
    ghost var lag := LagRows(ps);
    ghost var links := Pairs(Everyone, Everyone);
    ghost var n: nat := 0;
    assert Everyone[..0] == [];
    for left := 0 to |ps|
      invariant n == |Pairs(Everyone[..left], Everyone)| <= |links|
      invariant LossRows(ps) == Marked(loss, links, n, 0)
      invariant LagRows(ps) == Marked(lag, links, n, 0)
    {
      EveryoneRow(left, links, n);
      n := HealRow(ps, left, loss, lag, links, n);
    }
    assert Everyone[..|ps|] == Everyone;
    assert n == |links|;
    MarkedEveryone(loss, 0);
    MarkedEveryone(lag, 0);
  }

  // ---------------------------------------------------------------------
  // Random lag around one process
  // ---------------------------------------------------------------------

  /** The lag a draw of rand.Int31n(100) gives: 10 to 109 seconds. */
  function LagOf(draw: int): (d: Duration)
    requires 0 <= draw < 100
    ensures 10 * Second <= d <= 109 * Second
    ensures d % Second == 0
  {
    (10 + draw) as Duration * Second
  }

  /** Draws a random source may return for rand.Int31n(100), one per process. */
  predicate PeerDraws(draws: seq<int>)
  {
    |draws| == NumProcesses && forall i :: 0 <= i < |draws| ==> 0 <= draws[i] < 100
  }

  /**
   * The lag matrix after the lag loop has visited the first n peers of p:
   * for each peer i other than p, p's lag to i comes from outDraws[i] and
   * i's lag to p from inDraws[i].
   */
  function Spread(rows: seq<seq<Duration>>, p: int, outDraws: seq<int>, inDraws: seq<int>, n: nat): seq<seq<Duration>>
    requires PeerDraws(outDraws) && PeerDraws(inDraws) && n <= NumProcesses
  {
    if n == 0 then rows
    else
      var prev := Spread(rows, p, outDraws, inDraws, n - 1);
      var i := n - 1;
      if i == p then prev
      else Set(Set(prev, p, i, LagOf(outDraws[i])), i, p, LagOf(inDraws[i]))
  }

  /**
   * After the whole lag loop, row p holds the outgoing draws and column p
   * the incoming ones, off the diagonal; every other entry, and p's own
   * entry, is as before.
   */
  lemma {:induction false} SpreadAt(rows: seq<seq<Duration>>, p: int, outDraws: seq<int>, inDraws: seq<int>, n: nat, a: int, b: int)
    requires Square(rows) && PeerDraws(outDraws) && PeerDraws(inDraws) && n <= NumProcesses
    requires 0 <= p < NumProcesses && InCluster2((a, b))
    ensures Square(Spread(rows, p, outDraws, inDraws, n))
    ensures Spread(rows, p, outDraws, inDraws, n)[a][b] ==
      if a == p && b != p && b < n then LagOf(outDraws[b])
      else if b == p && a != p && a < n then LagOf(inDraws[a])
      else rows[a][b]
  {
    if n > 0 {
      SpreadAt(rows, p, outDraws, inDraws, n - 1, a, b);
    }
  }

  /**
   * LagHandler without the HTTP layer, for a form with the single key `key`:
   * the key is read with Atoi, its error ignored, and every link between
   * that process and another gets a fresh random lag in each direction. An
   * id outside the cluster panics on its first index, before any store.
   * `outDraws[i]` and `inDraws[i]` are the two draws made for peer i.
   */
  method LagHandler(ps: seq<Process>, key: string, outDraws: seq<int>, inDraws: seq<int>) returns (response: Response)
    requires Cluster(ps) && PeerDraws(outDraws) && PeerDraws(inDraws)
    modifies LagArrays(ps)
    ensures unchanged(LossArrays(ps))
    ensures var p := Atoi(key).value;
      if 0 <= p < NumProcesses then
        response == Redirect && LagRows(ps) == Spread(old(LagRows(ps)), p, outDraws, inDraws, NumProcesses)
      else
        response == IndexPanic && unchanged(LagArrays(ps))
  {
    var processId := Atoi(key).value;
    if !(0 <= processId < |ps|) {
      return IndexPanic;
    }
    ghost var lag := LagRows(ps);
    var i := 0;
    while i < ps[processId].network.lag.Length
      invariant 0 <= i <= NumProcesses
      invariant LagRows(ps) == Spread(lag, processId, outDraws, inDraws, i)
    {
      if i != processId {
        SetLag(ps, processId, i, LagOf(outDraws[i]));
        SetLag(ps, i, processId, LagOf(inDraws[i]));
      }
      i := i + 1;
    }
    return Redirect;
  }
}
