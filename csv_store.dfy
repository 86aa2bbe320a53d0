/** The CSV files of the data directory as main.py writes and reads them
    (`_write_rows_to`, `ensure_data_files`, `read_known_addresses`,
    `append_known_address`): each file is its lines, a header line followed
    by one line per row, only ever appended to. */
module CsvStore {
  import opened Common
  import opened Text

  /** A line of a CSV file written by `csv.DictWriter`. */
  datatype Line<R> = Header | Row(row: R)

  /** The lines `writerow` writes for rows, one each. */
  function RowLines<R>(rows: seq<R>): (ls: seq<Line<R>>)
    ensures |ls| == |rows|
    ensures forall i :: 0 <= i < |rows| ==> ls[i] == Row(rows[i])
  {
    seq(|rows|, i requires 0 <= i < |rows| => Row(rows[i]))
  }

  /** The rows `csv.DictReader` yields for the lines of a well-headed file:
      every line but the header. */
  function Data<R>(lines: seq<Line<R>>): seq<R> {
    if lines == [] then []
    else Data(lines[..|lines| - 1]) + (if lines[|lines| - 1].Row? then [lines[|lines| - 1].row] else [])
  }

  lemma {:induction false} DataAppend<R>(a: seq<Line<R>>, b: seq<Line<R>>)
    ensures Data(a + b) == Data(a) + Data(b)
    decreases |b|
  {
    if b == [] {
      assert a + b == a;
    } else {
      assert (a + b)[..|a + b| - 1] == a + b[..|b| - 1];
      DataAppend(a, b[..|b| - 1]);
    }
  }

  lemma {:induction false} DataOfRows<R>(rows: seq<R>)
    ensures Data(RowLines(rows)) == rows
    decreases |rows|
  {
    if rows != [] {
      var n := |rows| - 1;
      assert RowLines(rows)[..n] == RowLines(rows[..n]);
      DataOfRows(rows[..n]);
      assert rows[..n] + [rows[n]] == rows;
    }
  }

  /** What main.py writes to a file: the rows appended, after a header when
      the file did not exist yet. */
  function Appended<R>(lines: seq<Line<R>>, present: bool, rows: seq<R>): seq<Line<R>> {
    lines + (if present then [] else [Header]) + RowLines(rows)
  }

  /** Appending keeps every existing row and adds the new ones after them,
      in order; the header never reappears as a row. */
  lemma AppendedData<R>(lines: seq<Line<R>>, present: bool, rows: seq<R>)
    ensures Data(Appended(lines, present, rows)) == Data(lines) + rows
  {
    var h: seq<Line<R>> := if present then [] else [Header];
    DataAppend(lines + h, RowLines(rows));
    DataAppend(lines, h);
    DataOfRows(rows);
    assert Data(h) == [] by {
      if !present {
        assert h[..0] == [];
      }
    }
  }

  /** One CSV file: whether it exists, and its lines. */
  class CsvFile<R> {
    var present: bool
    var lines: seq<Line<R>>

    /** A file main.py made: absent and empty, or a header followed by rows. */
    predicate Valid()
      reads this
    {
      (present <==> lines != []) &&
      (lines != [] ==> lines[0] == Header) &&
      (forall i :: 1 <= i < |lines| ==> lines[i].Row?)
    }

    /** The rows a `csv.DictReader` over the file yields. */
    function Records(): seq<R>
      reads this
    {
      Data(lines)
    }

    constructor (initial: seq<R>, exists_: bool)
      ensures present == exists_ && lines == (if exists_ then [Header] + RowLines(initial) else [])
      ensures Valid()
    {
      present := exists_;
      lines := if exists_ then [Header] + RowLines(initial) else [];
    }

    /** `_write_rows_to(path, rows, header)`. */
    method WriteRows(rows: seq<R>)
      requires Valid()
      modifies this
      ensures present && lines == Appended(old(lines), old(present), rows)
      ensures Valid()
      ensures Records() == old(Records()) + rows
    {
      AppendedData(lines, present, rows);
      lines := Appended(lines, present, rows);
      present := true;
    }

    /** `ensure_data_files()` for this file: a missing file is created with
        its header line. */
    method CreateIfMissing()
      requires Valid()
      modifies this
      ensures present && lines == if old(present) then old(lines) else [Header]
      ensures Valid() && Records() == old(Records())
    {
      if !present {
        present := true;
        lines := [Header];
        assert Data(lines) == Data(lines[..0]) + [];
      }
    }
  }

  /** A row of `known_addresses.csv`: the address and `first_seen`. */
  datatype KnownRow = KnownRow(address: string, firstSeen: int)

  /** `read_known_addresses()`: the stripped address of every row whose
      address is not empty (a missing file has no lines). */
  function KnownIn(lines: seq<Line<KnownRow>>): set<string> {
    set l | l in lines && l.Row? && l.row.address != "" :: Strip(l.row.address)
  }

  /** The lines of the known-address file after `append_known_address(addr)`
      at time `now`: the stripped address is appended unless it is empty or
      already known. */
  function KnownAfter(lines: seq<Line<KnownRow>>, addr: string, now: int): seq<Line<KnownRow>> {
    var a := Strip(addr);
    if a == "" || a in KnownIn(lines) then lines else lines + [Row(KnownRow(a, now))]
  }

  /** The known set grows by exactly the stripped address, when it is not
      empty. */
  lemma KnownAfterAdds(lines: seq<Line<KnownRow>>, addr: string, now: int)
    ensures KnownIn(KnownAfter(lines, addr, now)) ==
      KnownIn(lines) + (if Strip(addr) == "" then {} else {Strip(addr)})
  {
    var a := Strip(addr);
    if a != "" && a !in KnownIn(lines) {
      var l: Line<KnownRow> := Row(KnownRow(a, now));
      var after := lines + [l];
      StripIdempotent(addr);
      assert l in after;
      assert KnownIn(after) == KnownIn(lines) + {a} by {
        forall x | x in KnownIn(after) ensures x in KnownIn(lines) + {a} {
          var m :| m in after && m.Row? && m.row.address != "" && Strip(m.row.address) == x;
          if m != l {
            assert m in lines;
          }
        }
      }
    }
  }

  /** Appending the same address again, at any time, changes nothing: an
      address gets at most one row. */
  lemma KnownAfterIdempotent(lines: seq<Line<KnownRow>>, addr: string, now1: int, now2: int)
    ensures KnownAfter(KnownAfter(lines, addr, now1), addr, now2) == KnownAfter(lines, addr, now1)
  {
    KnownAfterAdds(lines, addr, now1);
  }

  /** `append_known_address` for every address in turn. */
  function KnownAfterAll(lines: seq<Line<KnownRow>>, addrs: seq<string>, now: int): seq<Line<KnownRow>>
    decreases |addrs|
  {
    if addrs == [] then lines
    else KnownAfter(KnownAfterAll(lines, addrs[..|addrs| - 1], now), addrs[|addrs| - 1], now)
  }

  /** Appending one address more, or none. */
  lemma KnownAfterAllSnoc(lines: seq<Line<KnownRow>>, addrs: seq<string>, more: seq<string>, now: int)
    requires |more| <= 1
    ensures KnownAfterAll(lines, addrs + more, now) ==
      if more == [] then KnownAfterAll(lines, addrs, now) else KnownAfter(KnownAfterAll(lines, addrs, now), more[0], now)
  {
    if more == [] {
      assert addrs + more == addrs;
    } else {
      assert (addrs + more)[..|addrs|] == addrs;
    }
  }

  /** The non-empty stripped addresses of a sequence. */
  function Stripped(addrs: seq<string>): set<string>
    decreases |addrs|
  {
    if addrs == [] then {}
    else
      var a := Strip(addrs[|addrs| - 1]);
      Stripped(addrs[..|addrs| - 1]) + (if a == "" then {} else {a})
  }

  /** Every member comes from some address. */
  lemma {:induction false} StrippedSound(addrs: seq<string>, x: string) returns (i: int)
    requires x in Stripped(addrs)
    ensures x != "" && 0 <= i < |addrs| && Strip(addrs[i]) == x
    decreases |addrs|
  {
    var n := |addrs| - 1;
    if x in Stripped(addrs[..n]) {
      i := StrippedSound(addrs[..n], x);
      assert addrs[..n][i] == addrs[i];
    } else {
      i := n;
    }
  }

  /** Every address that does not strip to nothing contributes. */
  lemma {:induction false} StrippedComplete(addrs: seq<string>, i: int)
    requires 0 <= i < |addrs| && Strip(addrs[i]) != ""
    ensures Strip(addrs[i]) in Stripped(addrs)
    decreases |addrs|
  {
    var n := |addrs| - 1;
    if i < n {
      StrippedComplete(addrs[..n], i);
      assert addrs[..n][i] == addrs[i];
    }
  }

  lemma StrippedMembers(addrs: seq<string>, x: string)
    ensures x in Stripped(addrs) <==> x != "" && exists i :: 0 <= i < |addrs| && Strip(addrs[i]) == x
  {
    if x in Stripped(addrs) {
      var i := StrippedSound(addrs, x);
    }
    if x != "" && exists i :: 0 <= i < |addrs| && Strip(addrs[i]) == x {
      var i :| 0 <= i < |addrs| && Strip(addrs[i]) == x;
      StrippedComplete(addrs, i);
    }
  }

  /** After a run of appends the known set is the old one plus every
      non-empty stripped address. */
  lemma {:induction false} KnownAfterAllAdds(lines: seq<Line<KnownRow>>, addrs: seq<string>, now: int)
    ensures KnownIn(KnownAfterAll(lines, addrs, now)) == KnownIn(lines) + Stripped(addrs)
    decreases |addrs|
  {
    if addrs != [] {
      var n := |addrs| - 1;
      KnownAfterAllAdds(lines, addrs[..n], now);
      KnownAfterAdds(KnownAfterAll(lines, addrs[..n], now), addrs[n], now);
    }
  }

  /** The lines a run of appends adds are rows, one per address that was
      neither empty nor known, each with a different address: the file only
      grows, and no address is listed twice by one run. */
  lemma {:induction false} KnownAfterAllFresh(lines: seq<Line<KnownRow>>, addrs: seq<string>, now: int)
    returns (added: seq<KnownRow>)
    ensures KnownAfterAll(lines, addrs, now) == lines + RowLines(added)
    ensures forall i :: 0 <= i < |added| ==>
      added[i].address != "" && Strip(added[i].address) == added[i].address && added[i].address !in KnownIn(lines)
    ensures forall i, j :: 0 <= i < j < |added| ==> added[i].address != added[j].address
    ensures |added| <= |addrs|
    decreases |addrs|
  {
    if addrs == [] {
      added := [];
      assert lines + RowLines(added) == lines;
    } else {
      var n := |addrs| - 1;
      var prev := KnownAfterAllFresh(lines, addrs[..n], now);
      var before := KnownAfterAll(lines, addrs[..n], now);
      var a := Strip(addrs[n]);
      if a == "" || a in KnownIn(before) {
        added := prev;
      } else {
        added := prev + [KnownRow(a, now)];
        KnownAfterAllAdds(lines, addrs[..n], now);
        StripIdempotent(addrs[n]);
        FreshRow(lines, prev, a, now);
        forall i, j | 0 <= i < j < |added| ensures added[i].address != added[j].address {
          assert added[i] == prev[i];
          if j < |prev| {
            assert added[j] == prev[j];
          }
        }
      }
    }
  }

  /** A new address appended after rows of stripped, non-empty addresses
      differs from each of them. */
  lemma FreshRow(lines: seq<Line<KnownRow>>, prev: seq<KnownRow>, a: string, now: int)
    requires forall i :: 0 <= i < |prev| ==> prev[i].address != "" && Strip(prev[i].address) == prev[i].address
    requires a !in KnownIn(lines + RowLines(prev))
    ensures lines + RowLines(prev) + [Row(KnownRow(a, now))] == lines + RowLines(prev + [KnownRow(a, now)])
    ensures forall i :: 0 <= i < |prev| ==> prev[i].address != a
  {
    var before := lines + RowLines(prev);
    assert RowLines(prev + [KnownRow(a, now)]) == RowLines(prev) + [Row(KnownRow(a, now))];
    AppendAssoc(lines, RowLines(prev), [Row(KnownRow(a, now))]);
    forall i | 0 <= i < |prev| ensures prev[i].address != a {
      assert before[|lines| + i] == Row(prev[i]);
      assert before[|lines| + i] in before;
    }
  }

  /** `read_known_addresses()`: nothing when the file does not exist. */
  function ReadKnownAddresses(f: CsvFile<KnownRow>): set<string>
    reads f
  {
    if !f.present then {} else KnownIn(f.lines)
  }

  /** `append_known_address(addr)` at time `now`, on the file
      `ensure_data_files` created. */
  method AppendKnown(f: CsvFile<KnownRow>, addr: string, now: int)
    requires f.Valid() && f.present
    modifies f
    ensures f.Valid() && f.present
    ensures f.lines == KnownAfter(old(f.lines), addr, now)
  {
    var a := Strip(addr);
    if a == "" {
      return;
    }
    var known := ReadKnownAddresses(f);
    if a in known {
      return;
    }
    f.WriteRows([KnownRow(a, now)]);
  }
}
