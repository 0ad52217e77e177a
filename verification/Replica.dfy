/** One symbol on a follower: its own log, book and position, updated write-ahead from the primary's stream. */
module ReplicaModule {
  import opened Matching
  import opened Ladders
  import opened Commit
  import opened Framing
  import opened Wal
  import opened WalFiles
  import opened Replication
  import opened BookModule

  class SymbolState {
    const book: Book
    const wal: Writer
    var position: int

    ghost predicate Valid()
      reads this, book, book.Repr, wal, wal.disk
    {
      book.Valid() && book in book.Repr && {this as object, wal, wal.disk} !! book.Repr
    }

    ghost function View(): Follower
      reads this, book, book.Repr, wal, wal.disk
      requires book.Valid()
    {
      Follower(book.View(), wal.View(), position)
    }

    constructor (book: Book, wal: Writer, position: int)
      requires book.Valid() && book in book.Repr && {wal as object, wal.disk} !! book.Repr
      ensures Valid() && View() == Follower(book.View(), wal.View(), position)
      ensures this.book == book && this.wal == wal
    {
      this.book, this.wal, this.position := book, wal, position;
    }

    /** The records of a batch that have not been applied yet. */
    method Filter(records: seq<Record>) returns (news: seq<Record>)
      ensures news == Above(records, position)
    {
      news := [];
      for i := 0 to |records|
        invariant news == Above(records[..i], position)
      {
        AboveSnoc(records[..i], records[i], position);
        assert records[..i + 1] == records[..i] + [records[i]];
        if records[i].seqNo <= position { continue; }
        news := news + [records[i]];
      }
      assert records[..|records|] == records;
    }

    method AppendRecords(rs: seq<Record>, faults: seq<Fault>) returns (ok: bool)
      requires Valid() && AllInt64(rs) && |faults| == |rs|
      modifies wal, wal.disk
      ensures Valid() && book.Repr == old(book.Repr)
      ensures (wal.View(), ok) == AppendAll(wal.codec, old(wal.View()), rs, faults)
    {
      hide Wal.Append, Writer.View, CoreInv, WellFormed, Book.Linked, Book.State, Book.View;
      assert rs[0..] == rs && faults[0..] == faults;
      for i := 0 to |rs|
        invariant Valid() && book.Repr == old(book.Repr)
        invariant AppendAll(wal.codec, old(wal.View()), rs, faults)
               == AppendAll(wal.codec, wal.View(), rs[i..], faults[i..])
      {
        assert rs[i..][1..] == rs[i + 1..] && faults[i..][1..] == faults[i + 1..];
        var appended := wal.Append(rs[i], faults[i]);
        if !appended { return false; }
      }
      return true;
    }

    method ReplayRecords(rs: seq<Record>)
      requires Valid() && Replayable(book.View(), rs)
      modifies this`position, book.Repr
      ensures Valid() && fresh(book.Repr - old(book.Repr))
      ensures book.View() == Replay(old(book.View()), rs)
      ensures position == if rs == [] then old(position) else rs[|rs| - 1].seqNo
    {
      hide CanApply, ApplyRecord, CoreInv, WellFormed, Book.Linked, Book.State, Book.View;
      ghost var start := book.View();
      assert rs[0..] == rs;
      for i := 0 to |rs|
        invariant Valid() && fresh(book.Repr - old(book.Repr))
        invariant Replayable(book.View(), rs[i..]) && Replay(start, rs) == Replay(book.View(), rs[i..])
        invariant position == if i == 0 then old(position) else rs[i - 1].seqNo
      {
        assert rs[i..][1..] == rs[i + 1..];
        Apply(book, rs[i]);
        book.ValidParts();
        position := rs[i].seqNo;
      }
    }

    /** Make a batch durable, then replay it into the book, in that order. */
    method ApplyRecords(records: seq<Record>, faults: seq<Fault>, syncOk: bool) returns (ok: bool)
      requires Valid() && AllInt64(records) && |faults| == |Above(records, position)|
      requires Replayable(book.View(), Above(records, position))
      modifies this, wal, wal.disk, book.Repr
      ensures Valid() && fresh(book.Repr - old(book.Repr))
      ensures (View(), ok) == ApplyBatch(wal.codec, old(View()), records, faults, syncOk)
    {
      hide AppendAll, Replay, Replayable, Above, Writer.View, CoreInv, WellFormed, Book.Linked, Book.State, Book.View;
      AboveIsInt64(records, position);
      var news := Filter(records);
      if |news| == 0 { return true; }
      var appended := AppendRecords(news, faults);
      if !appended { return false; }
      var synced := wal.Sync(syncOk);
      if !synced { return false; }
      ReplayRecords(news);
      return true;
    }
  }

  /** Prepare a symbol from the follower's own log: null when the log is damaged. */
  method OpenSymbol(disk: Directory, codec: Codec, maxSegmentBytes: int) returns (st: SymbolState?)
    requires Replayable(EmptyBook, Above(ReadAll(codec, disk.segments).0, 0))
    modifies disk
    ensures var (rs, clean) := ReadAll(codec, old(disk.segments));
      var w := Wal.OpenWriter(codec, old(disk.segments), maxSegmentBytes);
      && (st != null <==> clean && w.Some?)
      && (st != null ==>
            && st.Valid() && st.wal.disk == disk
            && st.View() == Follower(Replay(EmptyBook, Above(rs, 0)), w.value, MaxSeq(rs)))
  {
    hide Replay, Replayable, ReadAll, Wal.OpenWriter, MaxSeq, Above, CoreInv, WellFormed, Book.Linked, Book.State,
         Book.View;
    st := null;
    var book := new Book();
    book.ValidParts();
    var position, clean := Recover(disk, codec, book, 0);
    book.ValidParts();
    if !clean { return; }
    var w := WalFiles.OpenWriter(disk, codec, maxSegmentBytes);
    if w == null { return; }
    st := new SymbolState(book, w, position);
  }
}
