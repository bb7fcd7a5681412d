/** The two passes over the commands file in parse.c, and the weighted choice of client.c. */
module Loader {
  import opened Counting

  /** A line as both passes see it. An opening line says whether it is for this host, what it
      opens and what parseStart returns for it; a closing line what parseEnd returns and the
      weight the section then has. */
  datatype Line = Text | Close(ended: int, weight: int) | Open(forUs: bool, kind: Kind, started: int)
  datatype Kind = Default | Graph | Protocol(known: bool)

  // ----- Counting -----

  predicate Counted(l: Line) {
    l.Open? && l.forUs && l.kind == Protocol(true)
  }

  lemma CountNext(lines: seq<Line>, i: nat)
    requires i < |lines|
    ensures Count(lines[..i + 1], Counted) == Count(lines[..i], Counted) + if Counted(lines[i]) then 1 else 0
  {
    assert lines[..i + 1][..i] == lines[..i];
  }

  lemma {:induction false} CountMono(lines: seq<Line>, i: nat)
    requires i <= |lines|
    ensures Count(lines[..i], Counted) <= Count(lines, Counted)
    decreases |lines| - i
  {
    if i < |lines| {
      CountNext(lines, i);
      CountMono(lines, i + 1);
    } else {
      assert lines[..i] == lines;
    }
  }

  /** count_num_commands */
  method CountNumCommands(lines: seq<Line>) returns (n: nat)
    ensures n == Count(lines, Counted)
  {
    n := 0;
    for i := 0 to |lines|
      invariant n == Count(lines[..i], Counted)
    {
      CountNext(lines, i);
      match lines[i] {
        case Text => continue;
        case Close(_, _) => continue;
        case Open(forUs, kind, _) =>
          if kind == Default || kind == Graph || !forUs || kind == Protocol(false) {
            continue;
          }
          n := n + 1;
      }
    }
    assert lines[..|lines|] == lines;
  }

  // ----- Sums -----

  function Sum(w: seq<int>): int {
    if w == [] then 0 else Sum(w[..|w| - 1]) + w[|w| - 1]
  }

  lemma SumNext(w: seq<int>, i: nat)
    requires i < |w|
    ensures Sum(w[..i + 1]) == Sum(w[..i]) + w[i]
  {
    assert w[..i + 1][..i] == w[..i];
  }

  // ----- Loading -----

  /** Every section is closed before the next is opened. */
  predicate WellFormed(lines: seq<Line>, inside: bool) {
    if lines == [] then !inside
    else match lines[0]
      case Text => WellFormed(lines[1..], inside)
      case Open(_, _, _) => !inside && WellFormed(lines[1..], true)
      case Close(_, _) => inside && WellFormed(lines[1..], false)
  }

  predicate Succeeds(l: Line) {
    (Counted(l) ==> l.started > 0) && (l.Close? ==> l.ended >= 0)
  }

  /** The weights of the counted sections, in order; `pending` is whether one is open. */
  function SectionWeights(lines: seq<Line>, pending: bool): seq<int> {
    if lines == [] then []
    else match lines[0]
      case Text => SectionWeights(lines[1..], pending)
      case Open(_, _, _) => SectionWeights(lines[1..], Counted(lines[0]))
      case Close(_, w) => (if pending then [w] else []) + SectionWeights(lines[1..], false)
  }

  // ----- Which files fail the assertion -----

  /** Starts a section that is then read. */
  predicate Starts(l: Line) {
    Counted(l) && l.started > 0
  }

  /** Opens a section that is ignored, or the default section. */
  predicate Switches(l: Line) {
    l.Open? && (!l.forUs || l.kind == Default || l.kind == Graph)
  }

  /** Leaves a section that is being read open: also a close that cannot be parsed does. */
  predicate Stays(l: Line) {
    !Switches(l) && (l.Close? ==> l.ended < 0)
  }

  /** The section started at line `i` is still being read behind the first `m` lines. */
  ghost predicate ReadSince(lines: seq<Line>, i: nat, m: nat)
    requires m <= |lines|
  {
    i < m && Starts(lines[i]) && forall t | i < t < m :: Stays(lines[t])
  }

  ghost predicate Reading(lines: seq<Line>, m: nat)
    requires m <= |lines|
  {
    exists i: nat :: ReadSince(lines, i, m)
  }

  /** At line `j` such a section has given way to one that is not read, and no section has been
      closed or started since. */
  ghost predicate LeftSince(lines: seq<Line>, j: nat, m: nat)
    requires m <= |lines|
  {
    j < m && Reading(lines, j) && Switches(lines[j]) && forall t | j < t < m :: !lines[t].Close? && !Starts(lines[t])
  }

  ghost predicate Left(lines: seq<Line>, m: nat)
    requires m <= |lines|
  {
    exists j: nat :: LeftSince(lines, j, m)
  }

  /** A section that is not read is closed while the lines of another are left over. */
  ghost predicate Aborts(lines: seq<Line>) {
    exists k | 0 <= k < |lines| :: lines[k].Close? && Left(lines, k)
  }

  lemma ReadingNext(lines: seq<Line>, m: nat)
    requires m < |lines|
    ensures Reading(lines, m + 1) <==> Starts(lines[m]) || (Reading(lines, m) && Stays(lines[m]))
  {
    if Starts(lines[m]) {
      assert ReadSince(lines, m, m + 1);
    } else if Reading(lines, m) && Stays(lines[m]) {
      var i: nat :| ReadSince(lines, i, m);
      assert ReadSince(lines, i, m + 1);
    } else if Reading(lines, m + 1) {
      var i: nat :| ReadSince(lines, i, m + 1);
      assert ReadSince(lines, i, m);
    }
  }

  /** The weights of the sections among the first `m` lines that were being read when a line closed
      them that could be parsed. */
  ghost function ReadWeights(lines: seq<Line>, m: nat): seq<int>
    requires m <= |lines|
  {
    if m == 0 then []
    else
      var l := lines[m - 1];
      ReadWeights(lines, m - 1) + if l.Close? && l.ended >= 0 && Reading(lines, m - 1) then [l.weight] else []
  }

  lemma LeftNext(lines: seq<Line>, m: nat)
    requires m < |lines|
    ensures Left(lines, m + 1) <==>
              (Reading(lines, m) && Switches(lines[m])) || (Left(lines, m) && !lines[m].Close? && !Starts(lines[m]))
  {
    if Reading(lines, m) && Switches(lines[m]) {
      assert LeftSince(lines, m, m + 1);
    } else if Left(lines, m) && !lines[m].Close? && !Starts(lines[m]) {
      var j: nat :| LeftSince(lines, j, m);
      assert LeftSince(lines, j, m + 1);
    } else if Left(lines, m + 1) {
      var j: nat :| LeftSince(lines, j, m + 1);
      assert LeftSince(lines, j, m);
    }
  }

  /** A section whose end cannot be parsed, and an ignored section behind it. */
  lemma {:induction false} GraphAborts(lines: seq<Line>, weight: int)
    requires lines == [Open(true, Protocol(true), 1), Close(-1, weight), Open(false, Graph, 0), Close(0, 0)]
    ensures WellFormed(lines, false) && Aborts(lines)
  {
    assert ReadSince(lines, 0, 2);
    assert LeftSince(lines, 2, 3);
    assert lines[3..][1..] == [] && WellFormed(lines[3..], true);
    assert lines[2..][1..] == lines[3..] && WellFormed(lines[2..], false);
    assert lines[1..][1..] == lines[2..] && WellFormed(lines[1..], true);
    assert lines[3].Close? && Left(lines, 3);
  }

  /** What the first `m` lines come to. */
  ghost predicate Comes(lines: seq<Line>, m: nat, reading: bool, left: bool, opens: nat, weights: seq<int>) {
    && m <= |lines| && (Reading(lines, m) <==> reading) && (Left(lines, m) <==> left)
    && Count(lines[..m], Counted) == opens && ReadWeights(lines, m) == weights
    && forall k | 0 <= k < m :: !(lines[k].Close? && Left(lines, k))
  }

  lemma ComesNext(lines: seq<Line>, m: nat, reading: bool, left: bool, opens: nat, weights: seq<int>)
    requires Comes(lines, m, reading, left, opens, weights) && m < |lines| && !(lines[m].Close? && left)
    ensures var l := lines[m];
            Comes(lines, m + 1, Starts(l) || (reading && Stays(l)),
                  (reading && Switches(l)) || (left && !l.Close? && !Starts(l)), opens + (if Counted(l) then 1 else 0),
                  weights + if l.Close? && l.ended >= 0 && reading then [l.weight] else [])
  {
    ReadingNext(lines, m);
    LeftNext(lines, m);
    CountNext(lines, m);
  }

  /** A file in which only the last section is loaded: the others are refused by parseStart, the
      default section, for another host, a graph, and of an unknown protocol. The last is closed
      by the second line that tries. */
  lemma {:induction false} MixedFile(lines: seq<Line>)
    requires lines == [Open(true, Protocol(true), 0), Text, Close(0, 1), Open(true, Default, 1), Close(0, 2),
               Open(false, Protocol(true), 1), Close(0, 3), Open(true, Graph, 1), Close(0, 4),
               Open(true, Protocol(false), 1), Close(0, 5), Open(true, Protocol(true), 1), Text, Close(-1, 6),
               Close(0, 7)]
    ensures Count(lines, Counted) == 2 && !Aborts(lines) && ReadWeights(lines, 15) == [7] && Sum([7]) == 7
  {
    for m := 0 to 11
      invariant Comes(lines, m, false, false, if m == 0 then 0 else 1, [])
    {
      ComesNext(lines, m, false, false, if m == 0 then 0 else 1, []);
    }
    ComesNext(lines, 11, false, false, 1, []);
    ComesNext(lines, 12, true, false, 2, []);
    ComesNext(lines, 13, true, false, 2, []);
    ComesNext(lines, 14, true, false, 2, []);
    assert lines[..15] == lines && [7][..0] == [];
  }

  class CommandList {
    const weights: array<int>   // of g_loaded_comm_list
    var commIndex: nat
    var inCommand: int          // 0 none, -1 ignore, 1 default, 2 other
    var params: nat             // the lines in param_lines; 0 is a null pointer
    var total: int

    /** With `opens` counted sections opened so far, there is room for the section being read. */
    ghost predicate Valid(opens: nat)
      reads this, weights
    {
      && commIndex + (if inCommand == 2 then 1 else 0) <= opens <= weights.Length
      && -1 <= inCommand <= 2 && (inCommand == 2 ==> params > 0)
      && total == Sum(weights[..commIndex])
    }

    constructor (n: nat)
      ensures Valid(0) && weights.Length == n && commIndex == inCommand == params == 0 && fresh(weights)
    {
      weights := new int[n](_ => 0);
      commIndex, inCommand, params, total := 0, 0, 0, 0;
    }

    /** A closing line. False is a failed assertion: lines are left over from a section whose
        end could not be parsed. */
    method TakeClose(l: Line, ghost opens: nat) returns (ok: bool)
      requires Valid(opens) && l.Close?
      modifies this, weights
      ensures Valid(opens)
      ensures ok == (old(inCommand) == 2 || old(params) == 0)
      ensures old(inCommand) < 2 ==> weights[..] == old(weights[..]) && commIndex == old(commIndex)
      ensures old(inCommand) < 2 ==> params == old(params) && inCommand < 2 && (ok ==> inCommand == 0)
      ensures old(inCommand) == 2 && l.ended >= 0 ==> commIndex == old(commIndex) + 1 && inCommand == params == 0
      ensures old(inCommand) == 2 && l.ended >= 0 ==> weights[..commIndex] == old(weights[..commIndex]) + [l.weight]
      ensures old(inCommand) == 2 && l.ended < 0 ==>
                commIndex == old(commIndex) && weights[..commIndex] == old(weights[..commIndex]) && inCommand == 2
    {
      if inCommand < 2 {
        if params != 0 {
          return false;
        }
        inCommand := 0;
        return true;
      }
      params := params + 1;
      weights[commIndex] := l.weight;
      assert weights[..commIndex] == old(weights[..commIndex]);
      if l.ended < 0 {
        return true;
      }
      SumNext(weights[..], commIndex);
      assert weights[..][..commIndex + 1] == weights[..commIndex + 1];
      assert weights[..][..commIndex] == weights[..commIndex];
      total := total + weights[commIndex];
      commIndex := commIndex + 1;
      inCommand := 0;
      params := 0;
      return true;
    }

    /** An opening line. */
    method TakeOpen(l: Line, ghost opens: nat)
      requires Valid(opens) && l.Open? && opens + (if Counted(l) then 1 else 0) <= weights.Length
      modifies this`inCommand, this`params
      ensures Valid(opens + if Counted(l) then 1 else 0)
      ensures Starts(l) ==> inCommand == 2
      ensures Switches(l) ==> inCommand < 2 && params == old(params)
      ensures !Starts(l) && !Switches(l) ==> inCommand == old(inCommand) && params == old(params)
      ensures !Counted(l) && old(inCommand) < 2 ==> inCommand < 2 && params == old(params)
    {
      if !l.forUs {
        inCommand := -1;
      } else if l.kind == Default {
        inCommand := 1;
      } else if l.kind == Graph {
        inCommand := -1;
      } else if l.kind == Protocol(true) {
        assert commIndex < weights.Length;
        if l.started > 0 {
          inCommand := 2;
          params := 1;
        }
      }
    }

    /** What has been loaded. */
    ghost function Loaded(): seq<int>
      reads this`commIndex, weights
      requires commIndex <= weights.Length
    {
      weights[..commIndex]
    }

    /** A section is open exactly if it is being read, and nothing is left over. */
    ghost predicate InStep(inside: bool)
      reads this`inCommand, this`params
    {
      (inCommand == 2 || params == 0) && (inCommand == 2 ==> inside)
    }

    /** Lines of a section are left over that is not being read any more. */
    predicate LeftOver()
      reads this`inCommand, this`params
    {
      inCommand < 2 && params != 0
    }

    /** A line. */
    method Take(l: Line, ghost opens: nat, ghost inside: bool) returns (ok: bool)
      requires Valid(opens) && opens + (if Counted(l) then 1 else 0) <= weights.Length
      modifies this, weights
      ensures Valid(opens + if Counted(l) then 1 else 0)
      ensures ok <==> !(l.Close? && old(LeftOver()))
      ensures ok ==> (inCommand == 2 <==> Starts(l) || (old(inCommand) == 2 && Stays(l)))
      ensures ok ==>
                (LeftOver() <==> (old(inCommand) == 2 && Switches(l)) || (old(LeftOver()) && !l.Close? && !Starts(l)))
      ensures ok ==>
                Loaded() == old(Loaded()) + if l.Close? && l.ended >= 0 && old(inCommand) == 2 then [l.weight] else []
      ensures old(InStep(inside)) && Succeeds(l) && (l.Open? ==> !inside) ==>
        && ok && InStep(if l.Text? then inside else l.Open?)
        && (inCommand == 2 <==> if l.Text? then old(inCommand) == 2 else Counted(l))
    {
      ok := true;
      match l {
        case Close(_, _) => ok := TakeClose(l, opens);
        case Open(_, _, _) => TakeOpen(l, opens);
        case Text =>
          if inCommand == 2 {
            params := params + 1;
          }
      }
    }
  }

  datatype Outcome = NoCommands | Aborted | Done(total: int)

  /** In a well-formed file every section can be read. */
  predicate Sound(lines: seq<Line>) {
    WellFormed(lines, false) && forall i | 0 <= i < |lines| :: Succeeds(lines[i])
  }

  /** The weights loaded before line `i`, followed by those of the sections still to come. */
  ghost predicate Agrees(lines: seq<Line>, i: nat, inside: bool, pending: bool, loaded: seq<int>)
    requires i <= |lines|
  {
    && WellFormed(lines[i..], inside) && loaded + SectionWeights(lines[i..], pending) == SectionWeights(lines, false)
    && |loaded| + (if pending then 1 else 0) == Count(lines[..i], Counted)
  }

  lemma AgreesNext(lines: seq<Line>, i: nat, inside: bool, pending: bool, loaded: seq<int>)
    requires i < |lines| && Agrees(lines, i, inside, pending, loaded)
    ensures lines[i].Open? ==> !inside
    ensures lines[i].Text? ==> Agrees(lines, i + 1, inside, pending, loaded)
    ensures lines[i].Open? && !pending ==> Agrees(lines, i + 1, true, Counted(lines[i]), loaded)
    ensures lines[i].Close? ==> Agrees(lines, i + 1, false, false, loaded + if pending then [lines[i].weight] else [])
  {
    CountNext(lines, i);
    var rest := lines[i..];
    assert rest[0] == lines[i] && rest[1..] == lines[i + 1..];
    if lines[i].Close? {
      assert loaded + ((if pending then [lines[i].weight] else []) + SectionWeights(rest[1..], false))
          == (loaded + if pending then [lines[i].weight] else []) + SectionWeights(rest[1..], false);
    }
  }

  /** What is known of the list when `i` lines have been taken. */
  ghost predicate Tracks(list: CommandList, lines: seq<Line>, i: nat)
    requires i <= |lines|
    reads list, list.weights
  {
    && list.Valid(Count(lines[..i], Counted)) && list.weights.Length == Count(lines, Counted)
    && (list.inCommand == 2 <==> Reading(lines, i)) && (list.LeftOver() <==> Left(lines, i))
    && list.Loaded() == ReadWeights(lines, i)
    && forall k | 0 <= k < i :: !(lines[k].Close? && Left(lines, k))
  }

  ghost predicate Follows(list: CommandList, lines: seq<Line>, i: nat, inside: bool)
    requires i <= |lines|
    reads list, list.weights
  {
    && list.commIndex <= list.weights.Length
    && list.InStep(inside) && Agrees(lines, i, inside, list.inCommand == 2, list.Loaded())
  }

  function InsideNext(l: Line, inside: bool): bool {
    if l.Text? then inside else l.Open?
  }

  /** An iteration of load_commands. */
  method TakeLine(list: CommandList, lines: seq<Line>, i: nat, ghost inside: bool) returns (ok: bool)
    requires i < |lines| && Tracks(list, lines, i)
    modifies list, list.weights
    ensures ok ==> Tracks(list, lines, i + 1)
    ensures list.Valid(Count(lines, Counted)) && (!ok ==> Aborts(lines))
    ensures old(Follows(list, lines, i, inside)) && Succeeds(lines[i]) ==>
              ok && Follows(list, lines, i + 1, InsideNext(lines[i], inside))
  {
    CountNext(lines, i);
    CountMono(lines, i + 1);
    ReadingNext(lines, i);
    LeftNext(lines, i);
    if Follows(list, lines, i, inside) {
      AgreesNext(lines, i, inside, list.inCommand == 2, list.Loaded());
    }
    ok := list.Take(lines[i], Count(lines[..i], Counted), inside);
  }

  /** The loop of load_commands. */
  method LoadLines(list: CommandList, lines: seq<Line>) returns (ok: bool)
    requires list.Valid(0) && list.inCommand == 0 && list.params == 0 && list.weights.Length == Count(lines, Counted)
    modifies list, list.weights
    ensures list.Valid(Count(lines, Counted)) && (ok <==> !Aborts(lines))
    ensures ok ==> list.Loaded() == ReadWeights(lines, |lines|)
    ensures Sound(lines) ==> ok && list.Loaded() == SectionWeights(lines, false)
    ensures Sound(lines) ==> list.commIndex == Count(lines, Counted)
  {
    ghost var inside := false;
    assert lines[0..] == lines && lines[..|lines|] == lines;
    for i := 0 to |lines|
      invariant Tracks(list, lines, i)
      invariant Sound(lines) ==> Follows(list, lines, i, inside)
    {
      ok := TakeLine(list, lines, i, inside);
      if !ok {
        return;
      }
      inside := InsideNext(lines[i], inside);
    }
    ok := true;
  }

  /** load_commands: it stays inside the list that the first pass has sized, it loads what
      ReadWeights says, and the total is the sum of those weights. If the file is well-formed and
      every section can be parsed, those are the sections counted, in their order. */
  method LoadCommands(lines: seq<Line>) returns (list: CommandList, r: Outcome)
    ensures list.weights.Length == Count(lines, Counted) && list.commIndex <= Count(lines, Counted)
    ensures r == NoCommands <==> Count(lines, Counted) == 0
    ensures Count(lines, Counted) > 0 ==> (r == Aborted <==> Aborts(lines))
    ensures r.Done? ==> list.Loaded() == ReadWeights(lines, |lines|) && r.total == Sum(list.Loaded())
    ensures Sound(lines) && Count(lines, Counted) > 0 ==>
              r.Done? && list.Loaded() == SectionWeights(lines, false) && list.commIndex == Count(lines, Counted)
  {
    var n := CountNumCommands(lines);
    list := new CommandList(n);
    if n <= 0 {
      return list, NoCommands;
    }
    var ok := LoadLines(list, lines);
    r := if ok then Done(list.total) else Aborted;
  }

  // ----- The choice -----

  /** Draw `r` belongs to command `i`. */
  predicate Share(w: seq<int>, i: nat, r: int) {
    i < |w| && Sum(w[..i]) <= r < Sum(w[..i + 1])
  }

  lemma {:induction false} SumMono(w: seq<int>, i: nat, j: nat)
    requires i <= j <= |w| && forall k | 0 <= k < |w| :: w[k] >= 0
    ensures Sum(w[..i]) <= Sum(w[..j])
  {
    if i < j {
      SumMono(w, i, j - 1);
      SumNext(w, j - 1);
    }
  }

  /** choose_cmd: the loop stops inside the list, at the command the draw belongs to. */
  method ChooseCmd(w: seq<int>, commands: nat, total: int, random: nat) returns (i: int)
    requires commands > 1 ==> total > 0 && total == Sum(w) && forall k | 0 <= k < |w| :: w[k] >= 0
    ensures commands <= 1 ==> i == 0
    ensures commands > 1 ==> 0 <= i < |w| && Share(w, i, random % total)
  {
    i := 0;
    if commands > 1 {
      var r := random % total;
      i := -1;
      assert w[..0] == [] && w[..|w|] == w;
      while r >= 0
        invariant -1 <= i < |w| && r == random % total - Sum(w[..i + 1])
        invariant i >= 0 ==> Sum(w[..i]) <= random % total
        decreases |w| - i
      {
        if i + 1 == |w| {
          assert false;
        }
        i := i + 1;
        SumNext(w, i);
        r := r - w[i];
      }
    }
  }

  /** Every draw below the sum of the first `n` weights belongs to one of their commands. */
  lemma {:induction false} OwnerOf(w: seq<int>, n: nat, r: int) returns (i: nat)
    requires 0 < n <= |w| && 0 <= r < Sum(w[..n])
    ensures i < n && Share(w, i, r)
  {
    if Sum(w[..n - 1]) <= r {
      i := n - 1;
    } else {
      assert w[..0] == [];
      i := OwnerOf(w, n - 1, r);
    }
  }

  /** Of the draws from 0 to the total, exactly as many belong to a command as it weighs, and
      none to two. */
  lemma {:induction false} FairChoice(w: seq<int>, i: nat)
    requires i < |w| && forall k | 0 <= k < |w| :: w[k] >= 0
    ensures |set r: int | 0 <= r < Sum(w) && Share(w, i, r)| == w[i]
    ensures forall j: nat, r: int | Share(w, i, r) && Share(w, j, r) :: i == j
  {
    assert w[..0] == [] && w[..|w|] == w;
    SumMono(w, 0, i);
    SumMono(w, i + 1, |w|);
    SumNext(w, i);
    var a, b := Sum(w[..i]), Sum(w[..i + 1]);
    IntervalSize(a, b);
    assert (set r: int | 0 <= r < Sum(w) && Share(w, i, r)) == Interval(a, b);
    forall j: nat, r: int | Share(w, i, r) && Share(w, j, r) ensures i == j {
      if j < i {
        SumMono(w, j + 1, i);
      } else if i < j {
        SumMono(w, i + 1, j);
      }
    }
  }

  predicate Within(a: int, b: int, r: int) {
    a <= r < b
  }

  function Interval(a: int, b: int): set<int> {
    set r: int | a <= r < b && Within(a, b, r)
  }

  lemma {:induction false} IntervalSize(a: int, b: int)
    requires a <= b
    ensures |Interval(a, b)| == b - a
    decreases b - a
  {
    if a < b {
      IntervalSize(a, b - 1);
      assert forall r: int :: Within(a, b, r) <==> Within(a, b - 1, r) || r == b - 1;
      assert Interval(a, b) == Interval(a, b - 1) + {b - 1};
    } else {
      assert Interval(a, b) == {};
    }
  }
}
