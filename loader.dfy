/** The address loader of `main`: walks the parsed CSV rows in order and keeps
    the trimmed first field of every row that has fields and is not a header. */
module Loader {
  import opened Text
  import opened Seqs

  /** What one parsed row contributes: nothing for a row without fields or for
      a header row, otherwise its trimmed first field. */
  function RowAddress(row: seq<string>): Option<string> {
    if row == [] then None
    else
      var addr := Strip(row[0]);
      if IsHeader(addr) then None else Some(addr)
  }

  /** The address list the loader builds from `rows`. */
  function Loaded(rows: seq<seq<string>>): seq<string> {
    FilterMap(rows, RowAddress)
  }

  /** The positions of the rows that contribute an address. */
  function Origins(rows: seq<seq<string>>): seq<nat> {
    Kept(rows, RowAddress)
  }

  /** The loop of `main` that fills `addresses`. */
  method LoadAddresses(rows: seq<seq<string>>) returns (addresses: seq<string>)
    ensures addresses == Loaded(rows)
  {
    addresses := [];
    for i := 0 to |rows|
      invariant addresses == Loaded(rows[..i])
    {
      assert rows[..i + 1][..i] == rows[..i];
      var row := rows[i];
      if row == [] {
        continue;
      }
      var addr := Strip(row[0]);
      if IsHeader(addr) {
        continue;
      }
      addresses := addresses + [addr];
    }
    assert rows[..|rows|] == rows;
  }

  /** Loading two runs of rows loads each in turn. */
  lemma LoadedAppend(a: seq<seq<string>>, b: seq<seq<string>>)
    ensures Loaded(a + b) == Loaded(a) + Loaded(b)
  {
    FilterMapAppend(a, b, RowAddress);
  }

  /** What a single row loads. */
  lemma LoadedOne(row: seq<string>)
    ensures Loaded([row]) == if RowAddress(row).Some? then [RowAddress(row).value] else []
  {
    FilterMapOne(row, RowAddress);
  }

  /** A row without fields never produces an address. */
  lemma BlankRowSkipped(a: seq<seq<string>>, b: seq<seq<string>>)
    ensures Loaded(a + [[]] + b) == Loaded(a + b)
  {
    LoadedAppend(a + [[]], b);
    LoadedAppend(a, [[]]);
    LoadedAppend(a, b);
    LoadedOne([]);
  }

  /** No more addresses than rows, and none of them is a header. */
  lemma LoadedBounds(rows: seq<seq<string>>)
    ensures |Loaded(rows)| <= |rows|
    ensures forall k :: 0 <= k < |Loaded(rows)| ==> !IsHeader(Loaded(rows)[k])
  {
    KeptLength(rows, RowAddress);
    forall k | 0 <= k < |Loaded(rows)| ensures !IsHeader(Loaded(rows)[k]) {
      FilterMapAt(rows, RowAddress, k);
    }
  }

  /** Every loaded address is the trimmed first field of a non-blank row, and
      the rows they come from are in strictly increasing order, so relative
      input order is kept and duplicates are not merged. */
  lemma LoadedFromRows(rows: seq<seq<string>>)
    ensures |Origins(rows)| == |Loaded(rows)|
    ensures forall k :: 0 <= k < |Origins(rows)| ==>
      Origins(rows)[k] < |rows| && rows[Origins(rows)[k]] != [] &&
      Loaded(rows)[k] == Strip(rows[Origins(rows)[k]][0])
    ensures forall k, l :: 0 <= k < l < |Origins(rows)| ==> Origins(rows)[k] < Origins(rows)[l]
  {
    KeptLength(rows, RowAddress);
    forall k | 0 <= k < |Origins(rows)|
      ensures Origins(rows)[k] < |rows| && rows[Origins(rows)[k]] != []
      ensures Loaded(rows)[k] == Strip(rows[Origins(rows)[k]][0])
    {
      FilterMapAt(rows, RowAddress, k);
    }
    KeptIncreasing(rows, RowAddress);
  }

  /** A row contributes an address exactly when it has fields and its trimmed
      first field is not a header: no such row is lost. */
  lemma OriginsComplete(rows: seq<seq<string>>)
    ensures forall i :: 0 <= i < |rows| ==>
      (i in Origins(rows) <==> rows[i] != [] && !IsHeader(Strip(rows[i][0])))
  {
    forall i | 0 <= i < |rows|
      ensures i in Origins(rows) <==> rows[i] != [] && !IsHeader(Strip(rows[i][0]))
    {
      KeptMember(rows, RowAddress, i);
    }
  }

  /** A string with no space at either end strips to itself. */
  lemma StripKeeps(s: string)
    requires s == [] || (!IsSpace(s[0]) && !IsSpace(s[|s| - 1]))
    ensures Strip(s) == s
  {
    assert [] + s + [] == s;
    StripUnique([], s, []);
  }

  /** A single-field row whose value has no surrounding space and is not a
      header loads that value unchanged. */
  lemma PlainRowLoaded(addr: string)
    requires addr == [] || (!IsSpace(addr[0]) && !IsSpace(addr[|addr| - 1]))
    requires !IsHeader(addr)
    ensures Loaded([[addr]]) == [addr]
  {
    StripKeeps(addr);
    LoadedOne([addr]);
  }

  /** The header is only ever the literal `address`. */
  lemma HeaderRowSkipped()
    ensures Loaded([[Header]]) == []
  {
    StripKeeps(Header);
    assert IsHeader(Header) by { assert Lower(Header) == Header; }
    LoadedOne([Header]);
  }

  /** Lines `a1`, `address`, `a2` of one column each load `a1` and `a2`: the
      header line is skipped and the others are kept in order. */
  lemma HeaderLineScenario(a1: string, a2: string)
    requires a1 == [] || (!IsSpace(a1[0]) && !IsSpace(a1[|a1| - 1]))
    requires a2 == [] || (!IsSpace(a2[0]) && !IsSpace(a2[|a2| - 1]))
    requires !IsHeader(a1) && !IsHeader(a2)
    ensures Loaded([[a1], [Header], [a2]]) == [a1, a2]
  {
    PlainRowLoaded(a1);
    PlainRowLoaded(a2);
    HeaderRowSkipped();
    LoadedAppend([[a1]], [[Header]]);
    assert [[a1]] + [[Header]] == [[a1], [Header]];
    LoadedAppend([[a1], [Header]], [[a2]]);
    assert [[a1], [Header]] + [[a2]] == [[a1], [Header], [a2]];
  }

  /** The values `addr1` and `addr2` meet the conditions of the scenario, so
      the three lines `addr1`, `address`, `addr2` load exactly two addresses. */
  lemma ScenarioValuesArePlain()
    ensures !IsSpace("addr1"[0]) && !IsSpace("addr1"[4]) && !IsHeader("addr1")
    ensures !IsSpace("addr2"[0]) && !IsSpace("addr2"[4]) && !IsHeader("addr2")
    ensures Loaded([["addr1"], ["address"], ["addr2"]]) == ["addr1", "addr2"]
  {
    HeaderLineScenario("addr1", "addr2");
  }

  /** A header with surrounding whitespace and other letter case is still skipped. */
  lemma PaddedHeaderSkipped()
    ensures Loaded([["  ADDRESS\t", "note"]]) == []
  {
    var row := ["  ADDRESS\t", "note"];
    assert "  " + "ADDRESS" + "\t" == row[0];
    StripUnique("  ", "ADDRESS", "\t");
    NearHeadersAreNotHeaders();
    LoadedOne(row);
  }

  /** A first field of only whitespace is loaded as the empty address. */
  lemma EmptyFieldIsLoaded()
    ensures Loaded([["   "]]) == [""]
  {
    var row := ["   "];
    assert "   " + "" + "" == row[0];
    StripUnique("   ", "", "");
    assert !IsHeader("");
    LoadedOne(row);
  }
}
