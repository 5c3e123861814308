/**
 * The part of `CommandLineParser` in the run-control script that outlives
 * option parsing: the list of BoardReader processes. Every toy board named on
 * the command line is read out by the BoardReader at its host:port; boards
 * that share a host:port share one BoardReader, which then stands for all of
 * them as a "multi-board" reader.
 */
module CommandLineParser {

  import opened Common

  /**
   * One BoardReader process: its address, the kind and index of each board it
   * reads out (with a configuration slot per board), how many boards that is,
   * and the two flags the control code sets so that it addresses a shared
   * reader only once.
   */
  datatype BoardReader = BoardReader(host: string, port: int, kindList: seq<string>,
                                     boardIndexList: seq<int>, cfgList: seq<string>,
                                     boardCount: int, commandHasBeenSent: bool,
                                     hasBeenIncludedInXMLRPCList: bool, kind: string)

  /**
   * A process named on the command line. Toy boards carry the index of their
   * BoardReader; event builders ("eb") and aggregators ("ag") carry none.
   */
  datatype Proc = Proc(host: string, port: int, kind: string, index: int, boardId: int,
                       boardReaderIndex: Option<nat>)

  /** A BoardReader created for the first board seen at a host:port. */
  function NewReader(host: string, port: int, kind: string, boardIndex: int): BoardReader
  {
    BoardReader(host, port, [kind], [boardIndex], [""], 1, false, false, "multi-board")
  }

  /** A reader that takes on one more board. */
  function Joined(br: BoardReader, kind: string, boardIndex: int): BoardReader
  {
    br.(kindList := br.kindList + [kind], boardIndexList := br.boardIndexList + [boardIndex],
        cfgList := br.cfgList + [""], boardCount := br.boardCount + 1)
  }

  predicate At(br: BoardReader, host: string, port: int)
  {
    br.host == host && br.port == port
  }

  /** The position of the first reader at host:port, if there is one. */
  function FindReader(rs: seq<BoardReader>, host: string, port: int): (r: Option<nat>)
    ensures r.Some? ==> r.value < |rs| && At(rs[r.value], host, port)
    ensures r.Some? ==> forall j :: 0 <= j < r.value ==> !At(rs[j], host, port)
    ensures r.None? ==> forall j :: 0 <= j < |rs| ==> !At(rs[j], host, port)
    decreases |rs|
  {
    if rs == [] then None
    else if At(rs[0], host, port) then Some(0)
    else match FindReader(rs[1..], host, port)
         case None => None
         case Some(j) => Some(j + 1)
  }

  /** `addToBoardReaderList` on a list of readers: the new list and the reader's index. */
  function AddBoard(rs: seq<BoardReader>, host: string, port: int, kind: string,
                    boardIndex: int): (seq<BoardReader>, nat)
  {
    match FindReader(rs, host, port)
    case Some(j) => (rs[j := Joined(rs[j], kind, boardIndex)], j)
    case None => (rs + [NewReader(host, port, kind, boardIndex)], |rs|)
  }

  /**
   * What the control code relies on: one reader per host:port, and each
   * reader's board count matching its per-board lists, with at least one board.
   */
  predicate Registry(rs: seq<BoardReader>)
  {
    (forall i, j :: 0 <= i < j < |rs| ==> !At(rs[j], rs[i].host, rs[i].port)) &&
    (forall i :: 0 <= i < |rs| ==>
       rs[i].boardCount >= 1 && |rs[i].kindList| == rs[i].boardCount &&
       |rs[i].boardIndexList| == rs[i].boardCount && |rs[i].cfgList| == rs[i].boardCount)
  }

  /** The number of boards read out by the readers `rs`. */
  function TotalBoards(rs: seq<BoardReader>): int
  {
    if rs == [] then 0 else TotalBoards(rs[..|rs| - 1]) + rs[|rs| - 1].boardCount
  }

  /**
   * A board at a known host:port joins that reader, keeps its index and adds
   * its kind, index and an empty configuration; a board at a new host:port
   * gets a new single-board reader at the end of the list.
   */
  lemma AddBoardCases(rs: seq<BoardReader>, host: string, port: int, kind: string, boardIndex: int)
    ensures var (rs', idx) := AddBoard(rs, host, port, kind, boardIndex);
            idx < |rs'| && At(rs'[idx], host, port) &&
            (FindReader(rs, host, port).Some? ==>
               |rs'| == |rs| && rs'[idx].boardCount == rs[idx].boardCount + 1 &&
               rs'[idx].kindList == rs[idx].kindList + [kind] &&
               rs'[idx].boardIndexList == rs[idx].boardIndexList + [boardIndex] &&
               rs'[idx].cfgList == rs[idx].cfgList + [""] &&
               rs'[idx].commandHasBeenSent == rs[idx].commandHasBeenSent &&
               (forall j :: 0 <= j < |rs| && j != idx ==> rs'[j] == rs[j])) &&
            (FindReader(rs, host, port).None? ==>
               idx == |rs| && rs' == rs + [NewReader(host, port, kind, boardIndex)])
  {
  }

  /** Registering a board keeps one reader per host:port and consistent counts. */
  lemma {:induction false} AddBoardKeepsRegistry(rs: seq<BoardReader>, host: string, port: int,
                                                 kind: string, boardIndex: int)
    requires Registry(rs)
    ensures Registry(AddBoard(rs, host, port, kind, boardIndex).0)
  {
    var (rs', idx) := AddBoard(rs, host, port, kind, boardIndex);
    forall i, j | 0 <= i < j < |rs'| ensures !At(rs'[j], rs'[i].host, rs'[i].port) {
      assert rs'[i].host == rs[i].host && rs'[i].port == rs[i].port;
      if j < |rs| {
        assert rs'[j].host == rs[j].host && rs'[j].port == rs[j].port;
      }
    }
  }

  lemma {:induction false} TotalBoardsUpdate(rs: seq<BoardReader>, j: nat, br: BoardReader)
    requires j < |rs|
    ensures TotalBoards(rs[j := br]) == TotalBoards(rs) - rs[j].boardCount + br.boardCount
    decreases |rs|
  {
    var rs' := rs[j := br];
    if j < |rs| - 1 {
      assert rs'[..|rs'| - 1] == rs[..|rs| - 1][j := br];
      TotalBoardsUpdate(rs[..|rs| - 1], j, br);
    } else {
      assert rs'[..|rs'| - 1] == rs[..|rs| - 1];
    }
  }

  /** Each registration adds exactly one board to the total. */
  lemma {:induction false} AddBoardCountsOne(rs: seq<BoardReader>, host: string, port: int,
                                             kind: string, boardIndex: int)
    ensures TotalBoards(AddBoard(rs, host, port, kind, boardIndex).0) == TotalBoards(rs) + 1
  {
    match FindReader(rs, host, port)
    case Some(j) =>
      TotalBoardsUpdate(rs, j, Joined(rs[j], kind, boardIndex));
    case None =>
      var rs' := rs + [NewReader(host, port, kind, boardIndex)];
      assert rs'[..|rs'| - 1] == rs;
  }

  /** Every reader holds at least one board, so there are never more readers than boards. */
  lemma {:induction false} ReadersAtMostBoards(rs: seq<BoardReader>)
    requires Registry(rs)
    ensures |rs| <= TotalBoards(rs)
    decreases |rs|
  {
    if rs != [] {
      var init := rs[..|rs| - 1];
      assert Registry(init) by {
        forall i, j | 0 <= i < j < |init| ensures !At(init[j], init[i].host, init[i].port) {
          assert init[i] == rs[i] && init[j] == rs[j];
        }
      }
      ReadersAtMostBoards(init);
    }
  }

  /** Two boards at the same host:port get the same reader index. */
  lemma {:induction false} SameAddressSameReader(rs: seq<BoardReader>, host: string, port: int,
                                                 kind: string, boardIndex: int,
                                                 kind2: string, boardIndex2: int)
    requires Registry(rs)
    ensures var (rs1, i1) := AddBoard(rs, host, port, kind, boardIndex);
            AddBoard(rs1, host, port, kind2, boardIndex2).1 == i1
  {
    var (rs1, i1) := AddBoard(rs, host, port, kind, boardIndex);
    AddBoardKeepsRegistry(rs, host, port, kind, boardIndex);
    var f := FindReader(rs1, host, port);
    assert f.Some? by { assert At(rs1[i1], host, port); }
  }

  /** Every board reader index carried by `procs` is below `readerCount`. */
  predicate Indexed(readerCount: nat, procs: seq<Proc>)
  {
    forall i :: 0 <= i < |procs| && procs[i].boardReaderIndex.Some? ==>
      procs[i].boardReaderIndex.value < readerCount
  }

  /** Some process of `procs` is a board of reader `r`. */
  predicate Names(procs: seq<Proc>, r: nat)
  {
    exists i :: 0 <= i < |procs| && procs[i].boardReaderIndex == Some(r)
  }

  /**
   * The parsed command line: the processes named on it and the two run-length
   * targets that `stop` honours (both -1, "not set", until an option sets them).
   */
  class Options {
    var boardReaders: seq<BoardReader>
    var toys: seq<Proc>
    var eventBuilders: seq<Proc>
    var aggregators: seq<Proc>
    var eventsInRun: int
    var runDurationSeconds: int

    /** Toys are numbered in order and each names the reader at its own host:port. */
    ghost predicate Valid()
      reads this
    {
      Registry(boardReaders) &&
      (forall t :: 0 <= t < |toys| ==>
         toys[t].index == t && toys[t].boardReaderIndex.Some? &&
         toys[t].boardReaderIndex.value < |boardReaders| &&
         At(boardReaders[toys[t].boardReaderIndex.value], toys[t].host, toys[t].port)) &&
      TotalBoards(boardReaders) == |toys|
    }

    constructor ()
      ensures Valid()
      ensures boardReaders == [] && toys == [] && eventBuilders == [] && aggregators == []
      ensures eventsInRun == -1 && runDurationSeconds == -1
    {
      boardReaders := [];
      toys := [];
      eventBuilders := [];
      aggregators := [];
      eventsInRun := -1;
      runDurationSeconds := -1;
    }

    /**
     * `addToBoardReaderList`: scan the readers for one at host:port; join it
     * if found, otherwise append a new one.
     */
    method AddToBoardReaderList(host: string, port: int, kind: string, boardIndex: int)
      returns (brIndex: nat)
      modifies this
      ensures (boardReaders, brIndex) == AddBoard(old(boardReaders), host, port, kind, boardIndex)
      ensures toys == old(toys) && eventBuilders == old(eventBuilders) && aggregators == old(aggregators)
      ensures eventsInRun == old(eventsInRun) && runDurationSeconds == old(runDurationSeconds)
    {
      brIndex := 0;
      while brIndex < |boardReaders|
        invariant brIndex <= |boardReaders| && boardReaders == old(boardReaders)
        invariant forall j :: 0 <= j < brIndex ==> !At(boardReaders[j], host, port)
      {
        var br := boardReaders[brIndex];
        if host == br.host && port == br.port {
          boardReaders := boardReaders[brIndex := Joined(br, kind, boardIndex)];
          return;
        }
        brIndex := brIndex + 1;
      }
      brIndex := |boardReaders|;
      boardReaders := boardReaders + [NewReader(host, port, kind, boardIndex)];
    }

    /**
     * The `--toy1`/`--toy2` options: the board gets the next toy index and the
     * index of the reader at its host:port.
     */
    method AddToy(host: string, port: int, boardId: int, kind: string)
      requires Valid()
      modifies this
      ensures Valid()
      ensures var (rs, idx) := AddBoard(old(boardReaders), host, port, kind, |old(toys)|);
              boardReaders == rs &&
              toys == old(toys) + [Proc(host, port, kind, |old(toys)|, boardId, Some(idx))]
      ensures eventBuilders == old(eventBuilders) && aggregators == old(aggregators)
      ensures eventsInRun == old(eventsInRun) && runDurationSeconds == old(runDurationSeconds)
    {
      var index := |toys|;
      AddBoardKeepsRegistry(boardReaders, host, port, kind, index);
      AddBoardCountsOne(boardReaders, host, port, kind, index);
      AddBoardCases(boardReaders, host, port, kind, index);
      var readerIndex := AddToBoardReaderList(host, port, kind, index);
      toys := toys + [Proc(host, port, kind, index, boardId, Some(readerIndex))];
    }
  }

  /** With the options built by the parser there are never more readers than toy boards. */
  lemma ValidOptionsReaders(rs: seq<BoardReader>, toys: seq<Proc>)
    requires Registry(rs) && TotalBoards(rs) == |toys|
    ensures |rs| <= |toys|
  {
    ReadersAtMostBoards(rs);
  }
}
