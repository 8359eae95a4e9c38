/** The token masking that `print_table_data` applies before printing the users table: every
    non-empty cell under a header ending in `_token` keeps only its first and last four
    characters. Printing itself is not part of this model. */
module ReadMemoryDb {
  import opened Wrappers
  import opened Text

  /** A value fetched from SQLite. */
  datatype Cell = Null | Text(s: string) | Integer(n: int)

  type Row = seq<Cell>

  /** Python truthiness of a fetched value. */
  predicate Truthy(c: Cell) {
    match c
    case Null => false
    case Text(s) => s != ""
    case Integer(n) => n != 0
  }

  /** The mask of one token value. */
  function MaskToken(token: string): (r: string)
    ensures |token| > 8 ==> |r| == 11 && r[..4] == token[..4] && r[4..7] == "..."
                            && r[7..] == token[|token| - 4..]
    ensures |token| <= 8 ==> r == token
  {
    if |token| > 8 then token[..4] + "..." + token[|token| - 4..] else token
  }

  /** Masking an already masked token gives the same text back. */
  lemma MaskTokenIdempotent(token: string)
    ensures MaskToken(MaskToken(token)) == MaskToken(token)
  {
    var r := MaskToken(token);
    if |token| > 8 {
      assert r[..4] + "..." + r[|r| - 4..] == r[..4] + r[4..7] + r[7..];
      assert r[..4] + r[4..7] + r[7..] == r;
    }
  }

  /** A masked token reveals only its first and last four characters: two long tokens that
      agree there have the same mask. */
  lemma MaskTokenHidesMiddle(a: string, b: string)
    requires |a| > 8 && |b| > 8
    ensures MaskToken(a) == MaskToken(b) <==> a[..4] == b[..4] && a[|a| - 4..] == b[|b| - 4..]
  {
    if MaskToken(a) == MaskToken(b) {
      assert a[..4] == MaskToken(a)[..4];
      assert a[|a| - 4..] == MaskToken(a)[7..];
    }
  }

  predicate IsTokenHeader(header: string) {
    EndsWith(header, "_token")
  }

  /** The users table is masked only when the title is "Users" and a `github_token` column
      is present. */
  predicate MasksTable(title: string, headers: seq<string>) {
    title == "Users" && "github_token" in headers
  }

  /** One cell under `header`. A truthy integer under a token header has no `len` and raises
      `TypeError`. */
  function MaskCell(header: string, c: Cell): (r: Result<Cell, string>)
    ensures !IsTokenHeader(header) || !Truthy(c) ==> r == Success(c)
    ensures IsTokenHeader(header) && c.Text? && c.s != "" ==> r == Success(Text(MaskToken(c.s)))
    ensures r.Failure? <==> IsTokenHeader(header) && c.Integer? && c.n != 0
  {
    if IsTokenHeader(header) && Truthy(c) then
      match c
      case Text(token) => Success(Text(if |token| > 8 then token[..4] + "..." + token[|token| - 4..] else token))
      case Integer(_) => Failure("TypeError: object of type 'int' has no len()")
      case Null => Success(c)
    else Success(c)
  }

  /** Some cell of `row` cannot be masked. */
  predicate RowUnmaskable(headers: seq<string>, row: Row) {
    exists i :: 0 <= i < |headers| && i < |row| && MaskCell(headers[i], row[i]).Failure?
  }

  /** `masked` is `row` masked cell by cell. */
  predicate RowMasked(headers: seq<string>, row: Row, masked: Row) {
    |row| == |headers| && |masked| == |headers|
    && forall i :: 0 <= i < |headers| ==>
         MaskCell(headers[i], row[i]).Success? && masked[i] == MaskCell(headers[i], row[i]).value
  }

  /** Some cell of `rows` cannot be masked. */
  predicate Unmaskable(headers: seq<string>, rows: seq<Row>) {
    exists j :: 0 <= j < |rows| && RowUnmaskable(headers, rows[j])
  }

  /** `masked` is `rows` masked row by row. */
  predicate MaskedFrom(headers: seq<string>, rows: seq<Row>, masked: seq<Row>) {
    |masked| == |rows| && forall j :: 0 <= j < |rows| ==> RowMasked(headers, rows[j], masked[j])
  }

  /** The body of the outer loop: the row is copied and each truthy cell under a token header
      is overwritten with its mask, column by column. */
  method MaskRow(headers: seq<string>, row: Row) returns (r: Result<Row, string>)
    requires |row| == |headers|
    ensures r.Failure? <==> RowUnmaskable(headers, row)
    ensures r.Success? ==> RowMasked(headers, row, r.value)
  {
    var maskedRow := new Cell[|row|](k requires 0 <= k < |row| => row[k]);
    var i := 0;
    while i < |headers|
      invariant 0 <= i <= |headers|
      invariant forall k :: i <= k < |row| ==> maskedRow[k] == row[k]
      invariant forall k :: 0 <= k < i ==>
        MaskCell(headers[k], row[k]).Success? && maskedRow[k] == MaskCell(headers[k], row[k]).value
    {
      var header := headers[i];
      if EndsWith(header, "_token") && Truthy(row[i]) {
        match row[i]
        case Text(token) =>
          maskedRow[i] := Text(if |token| > 8 then token[..4] + "..." + token[|token| - 4..] else token);
        case Integer(_) =>
          assert MaskCell(headers[i], row[i]).Failure?;
          return Failure("TypeError: object of type 'int' has no len()");
      }
      i := i + 1;
    }
    r := Success(maskedRow[..]);
  }

  /** The masking step of `print_table_data`: rows of any other table pass through; for the
      users table the rows are masked one by one, in order. The rows come from the same cursor
      as the headers, so each has one cell per header. */
  method MaskRows(title: string, headers: seq<string>, rows: seq<Row>) returns (r: Result<seq<Row>, string>)
    requires forall row :: row in rows ==> |row| == |headers|
    ensures !MasksTable(title, headers) ==> r == Success(rows)
    ensures MasksTable(title, headers) ==> (r.Failure? <==> Unmaskable(headers, rows))
    ensures MasksTable(title, headers) && r.Success? ==> MaskedFrom(headers, rows, r.value)
  {
    if !(title == "Users" && "github_token" in headers) {
      return Success(rows);
    }
    var maskedRows: seq<Row> := [];
    var j := 0;
    while j < |rows|
      invariant 0 <= j <= |rows|
      invariant |maskedRows| == j
      invariant forall k :: 0 <= k < j ==> RowMasked(headers, rows[k], maskedRows[k])
    {
      assert rows[j] in rows;
      var masked := MaskRow(headers, rows[j]);
      if masked.Failure? {
        return Failure(masked.error);
      }
      maskedRows := maskedRows + [masked.value];
      j := j + 1;
    }
    r := Success(maskedRows);
  }

  /** What a successful mask keeps: the row count and order, every cell outside a token
      column, and every empty or NULL cell; every long token in a token column becomes an
      11-character mask of its first and last four characters. */
  lemma MaskedCells(headers: seq<string>, rows: seq<Row>, masked: seq<Row>, j: nat, i: nat)
    requires MaskedFrom(headers, rows, masked)
    requires j < |rows| && i < |headers|
    ensures |masked| == |rows| && |masked[j]| == |rows[j]|
    ensures !IsTokenHeader(headers[i]) || !Truthy(rows[j][i]) ==> masked[j][i] == rows[j][i]
    ensures IsTokenHeader(headers[i]) && rows[j][i].Text? && |rows[j][i].s| > 8 ==>
      masked[j][i].Text? && |masked[j][i].s| == 11
      && masked[j][i].s[..4] == rows[j][i].s[..4]
      && masked[j][i].s[7..] == rows[j][i].s[|rows[j][i].s| - 4..]
    ensures IsTokenHeader(headers[i]) && rows[j][i].Text? && |rows[j][i].s| <= 8 ==>
      masked[j][i] == rows[j][i]
  {
  }
}
