/**
 * `printTUI`: the header line, then one row group per key-value pair, laid out
 * within the terminal width. A pair whose trimmed value fits beside the widest
 * key is an aligned inline row; any other pair becomes an overflow block, its
 * key on one line and its whole trimmed value on the next.
 *
 * Output is the sequence of lines the printer writes, in order, one element
 * per line it ends; text holding line breaks of its own stays one element.
 */
module Layout {
  import opened Bytes
  import opened Utf8
  import opened Trim
  import opened Fmt
  import opened Fields

  /** Columns of blank space in front of every table line. */
  const KvIndent: nat := 12

  /** The width assumed when no terminal answers the size query. */
  const DefaultWidth: int := 80

  /** The text of `errTuiFail`. */
  function ErrTuiFail(): Bytes {
    Ascii("tui print failed")
  }

  /** The text of `errInvalidFields`. */
  function ErrInvalidFields(): Bytes {
    Ascii("expected even number of key-value pairs")
  }

  /** `fmt.Errorf("%w: %v", errTuiFail, errInvalidFields)`, as `fmt.Println` prints it. */
  function Diagnostic(): (r: Bytes)
    ensures AllAscii(r)
    ensures |r| == |ErrTuiFail()| + 2 + |ErrInvalidFields()|
    ensures r[..|ErrTuiFail()|] == ErrTuiFail()
    ensures r[|ErrTuiFail()|..|ErrTuiFail()| + 2] == [0x3A, Space]
    ensures r[|r| - |ErrInvalidFields()|..] == ErrInvalidFields()
  {
    var head, tail := ErrTuiFail(), ErrInvalidFields();
    var r := head + [0x3A, Space] + tail;
    assert r[..|head|] == head;
    assert r[|head|..|head| + 2] == [0x3A, Space];
    r
  }

  /** `"%s %s %s"` of the time of day, the icon and the message. */
  function Header(now: Bytes, icon: Bytes, msg: Bytes): (r: Bytes)
    ensures |r| == |now| + |icon| + |msg| + 2
    ensures r[..|now|] == now && r[|now|] == Space
    ensures r[|now| + 1..|now| + 1 + |icon|] == icon && r[|now| + 1 + |icon|] == Space
    ensures r[|r| - |msg|..] == msg
  {
    var r := now + [Space] + icon + [Space] + msg;
    assert r[..|now|] == now;
    assert r[|now| + 1..|now| + 1 + |icon|] == icon;
    r
  }

  /** `termInfo`: the terminal's (width, height), or (0, 0) when the size query fails. */
  function TermInfo(size: Option<(int, int)>): (r: (int, int))
    ensures size.None? ==> r == (0, 0)
    ensures size.Some? ==> r == size.value
  {
    match size
    case None => (0, 0)
    case Some(wh) => wh
  }

  /** The width the layout uses: the reported width, or the default in place of 0. */
  function EffectiveWidth(reported: int): (w: int)
    ensures w != 0
    ensures reported == 0 ==> w == DefaultWidth
    ensures reported != 0 ==> w == reported
  {
    if reported == 0 then DefaultWidth else reported
  }

  /** `longestKey`: the byte length of the longest untrimmed key, 0 when there is none. */
  function LongestKey(keys: seq<Bytes>): (m: nat)
    ensures forall i :: 0 <= i < |keys| ==> |keys[i]| <= m
    ensures keys == [] ==> m == 0
    ensures keys != [] ==> exists i :: 0 <= i < |keys| && |keys[i]| == m
  {
    if keys == [] then 0
    else
      var m := LongestKey(keys[..|keys| - 1]);
      var last := |keys[|keys| - 1]|;
      if last > m then last else m
  }

  /** The trimmed value fits on one line beside a key column of `longestKey`. */
  predicate Fits(value: Bytes, longestKey: nat, width: int) {
    KvIndent + longestKey + |TrimSpace(value)| <= width
  }

  /**
   * `longestValueThatFits`: the running maximum of the trimmed lengths of the
   * values that fit (see LongestValueThatFitsIsMax).
   */
  function LongestValueThatFits(values: seq<Bytes>, longestKey: nat, width: int): (m: nat)
    ensures values == [] ==> m == 0
    ensures m > 0 ==> KvIndent + longestKey + m <= width
  {
    if values == [] then 0
    else
      var m := LongestValueThatFits(values[..|values| - 1], longestKey, width);
      var last := values[|values| - 1];
      if Fits(last, longestKey, width) && |TrimSpace(last)| > m then |TrimSpace(last)| else m
  }

  /**
   * The longest trimmed value among those that fit, 0 when none does; values
   * that do not fit play no part, and a positive result itself fits.
   */
  lemma {:induction false} LongestValueThatFitsIsMax(values: seq<Bytes>, longestKey: nat, width: int)
    ensures forall i :: 0 <= i < |values| && Fits(values[i], longestKey, width) ==>
      |TrimSpace(values[i])| <= LongestValueThatFits(values, longestKey, width)
    ensures LongestValueThatFits(values, longestKey, width) == 0 ||
      exists i :: 0 <= i < |values| && Fits(values[i], longestKey, width) &&
        |TrimSpace(values[i])| == LongestValueThatFits(values, longestKey, width)
  {
    if values != [] {
      var n := |values|;
      var init := values[..n - 1];
      LongestValueThatFitsIsMax(init, longestKey, width);
      var m := LongestValueThatFits(init, longestKey, width);
      var r := LongestValueThatFits(values, longestKey, width);
      forall i | 0 <= i < n && Fits(values[i], longestKey, width)
        ensures |TrimSpace(values[i])| <= r
      {
        if i < n - 1 {
          assert init[i] == values[i];
        }
      }
      if r == m && m > 0 {
        var j :| 0 <= j < |init| && Fits(init[j], longestKey, width) && |TrimSpace(init[j])| == m;
        assert values[j] == init[j];
      } else if r != m {
        assert Fits(values[n - 1], longestKey, width);
      }
    }
  }

  /** The delimiters of a table line: `"| "`, `" | "` and `" |"`. */
  const CellOpen: Bytes := [0x7C, 0x20]
  const CellSep: Bytes := [0x20, 0x7C, 0x20]
  const CellClose: Bytes := [0x20, 0x7C]

  lemma DelimitersAscii()
    ensures AllAscii(CellOpen) && AllAscii(CellSep) && AllAscii(CellClose)
  {
    assert forall i :: 0 <= i < 2 ==> CellOpen[i] < 0x80 && CellClose[i] < 0x80;
    assert forall i :: 0 <= i < 3 ==> CellSep[i] < 0x80;
  }

  /** `"%*s| %-*s | %-*s |"`: indent, key column, value column. */
  function InlineRow(key: Bytes, keyWidth: nat, value: Bytes, valueWidth: nat): (r: Bytes)
    ensures |r| >= KvIndent + |key| + |value| + 7
  {
    PadLeft([], KvIndent) + CellOpen + PadRight(key, keyWidth) + CellSep + PadRight(value, valueWidth) + CellClose
  }

  /** `"%*s| %-*s |"`: the key line of an overflow block. */
  function KeyLine(key: Bytes, keyWidth: nat): (r: Bytes)
    ensures |r| >= KvIndent + |key| + 4
  {
    PadLeft([], KvIndent) + CellOpen + PadRight(key, keyWidth) + CellClose
  }

  lemma IndentIsSpaces()
    ensures PadLeft([], KvIndent) == Spaces(KvIndent)
  {
    assert RuneCount([]) == 0;
  }

  /**
   * The rune count of a line joined from ASCII delimiters and arbitrary cells:
   * every cell sits next to an ASCII byte, so no rune straddles a seam.
   */
  lemma JoinRunes(indent: Bytes, open: Bytes, k: Bytes, mid: Bytes, v: Bytes, close: Bytes)
    requires AllAscii(indent) && AllAscii(open) && AllAscii(mid) && AllAscii(close)
    requires open != [] && mid != []
    ensures RuneCount(indent + open + k + mid + v + close) ==
      |indent| + |open| + RuneCount(k) + |mid| + RuneCount(v) + |close|
  {
    AsciiRuneCount(indent);
    AsciiRuneCount(open);
    AsciiRuneCount(mid);
    AsciiRuneCount(close);
    var p1 := indent + open;
    RuneCountConcat(indent, open);
    var p2 := p1 + k;
    RuneCountConcat(p1, k);
    var p3 := p2 + mid;
    RuneCountConcat(p2, mid);
    var p4 := p3 + v;
    assert p3[|p3| - 1] == mid[|mid| - 1];
    RuneCountConcat(p3, v);
    RuneCountConcat(p4, close);
  }

  /**
   * An inline row is as many runes wide as the indent, both columns and the
   * seven delimiter characters, whenever neither cell is wider than its column.
   */
  lemma InlineRowRunes(key: Bytes, keyWidth: nat, value: Bytes, valueWidth: nat)
    requires RuneCount(key) <= keyWidth <= MaxWidth && RuneCount(value) <= valueWidth <= MaxWidth
    ensures RuneCount(InlineRow(key, keyWidth, value, valueWidth)) == KvIndent + keyWidth + valueWidth + 7
  {
    var indent, k, v := PadLeft([], KvIndent), PadRight(key, keyWidth), PadRight(value, valueWidth);
    IndentIsSpaces();
    DelimitersAscii();
    assert |indent| == KvIndent && |CellOpen| + |CellSep| + |CellClose| == 7;
    assert RuneCount(k) == keyWidth && RuneCount(v) == valueWidth;
    JoinRunes(indent, CellOpen, k, CellSep, v, CellClose);
    assert indent + CellOpen + k + CellSep + v + CellClose == InlineRow(key, keyWidth, value, valueWidth);
  }

  /** With ASCII cells no wider than their columns, a row is each cell followed by the spaces that fill its column. */
  lemma InlineRowAscii(key: Bytes, keyWidth: nat, value: Bytes, valueWidth: nat)
    requires AllAscii(key) && |key| <= keyWidth <= MaxWidth
    requires AllAscii(value) && |value| <= valueWidth <= MaxWidth
    ensures InlineRow(key, keyWidth, value, valueWidth) ==
      Spaces(KvIndent) + CellOpen + (key + Spaces(keyWidth - |key|)) + CellSep + (value + Spaces(valueWidth - |value|)) + CellClose
    ensures |InlineRow(key, keyWidth, value, valueWidth)| == KvIndent + keyWidth + valueWidth + 7
  {
    IndentIsSpaces();
    PadRightAscii(key, keyWidth);
    PadRightAscii(value, valueWidth);
  }

  /** An overflow block's key line ends where an inline row's key column ends, whenever the key fits its column. */
  lemma KeyLineRunes(key: Bytes, keyWidth: nat)
    requires RuneCount(key) <= keyWidth <= MaxWidth
    ensures RuneCount(KeyLine(key, keyWidth)) == KvIndent + keyWidth + 4
  {
    var indent, k := PadLeft([], KvIndent), PadRight(key, keyWidth);
    IndentIsSpaces();
    DelimitersAscii();
    JoinRunes(indent, CellOpen, k, CellClose, [], []);
    assert indent + CellOpen + k + CellClose + [] + [] == KeyLine(key, keyWidth);
  }

  /** What one key-value pair prints. */
  datatype RowGroup =
    | Inline(row: Bytes)
    | Overflow(keyLine: Bytes, value: Bytes)

  function GroupLines(g: RowGroup): seq<Bytes> {
    match g
    case Inline(row) => [row]
    case Overflow(keyLine, value) => [keyLine, value]
  }

  /** The lines of a sequence of row groups, in order. */
  function Lines(groups: seq<RowGroup>): seq<Bytes> {
    if groups == [] then []
    else Lines(groups[..|groups| - 1]) + GroupLines(groups[|groups| - 1])
  }

  /** Appending a group appends its lines. */
  lemma LinesSnoc(groups: seq<RowGroup>, i: nat)
    requires i < |groups|
    ensures Lines(groups[..i + 1]) == Lines(groups[..i]) + GroupLines(groups[i])
  {
    assert groups[..i + 1][..i] == groups[..i];
  }

  /** The row group of one pair, given the two column widths. */
  function Group(header: Bytes, value: Bytes, longestKey: nat, longestValue: nat, width: int): (g: RowGroup)
    ensures g.Inline? <==> Fits(value, longestKey, width)
    ensures g.Overflow? ==> g.value == TrimSpace(value)
  {
    var key := TrimSpace(header);
    var trimmedValue := TrimSpace(value);
    if Fits(value, longestKey, width) then
      Inline(InlineRow(key, longestKey, trimmedValue, longestValue))
    else
      Overflow(KeyLine(key, longestKey), trimmedValue)
  }

  /** The row groups of all pairs, in input order. */
  function Plan(keys: seq<Bytes>, values: seq<Bytes>, width: int): (groups: seq<RowGroup>)
    requires |keys| == |values|
    ensures |groups| == |keys|
  {
    var longestKey := LongestKey(keys);
    Groups(keys, values, longestKey, LongestValueThatFits(values, longestKey, width), width)
  }

  /** Everything one `printTUI` call writes, given the reported terminal width. */
  function Render(msg: Bytes, icon: Bytes, fields: seq<Bytes>, now: Bytes, reported: int): (out: seq<Bytes>)
    ensures |fields| % 2 != 0 ==> out == [Diagnostic(), Header(now, icon, msg)]
    ensures |fields| % 2 == 0 ==> |out| >= 1 + |fields| / 2 && out[0] == Header(now, icon, msg)
  {
    var header := Header(now, icon, msg);
    if |fields| % 2 != 0 then
      [Diagnostic(), header]
    else
      var groups := Plan(FieldKeys(fields), FieldValues(fields), EffectiveWidth(reported));
      LinesLength(groups);
      [header] + Lines(groups)
  }

  /** The layout ends up with the fallback width exactly when the size query fails or reports 0. */
  lemma WidthFallback(size: Option<(int, int)>)
    ensures size.None? ==> EffectiveWidth(TermInfo(size).0) == DefaultWidth
    ensures size.Some? && size.value.0 != 0 ==> EffectiveWidth(TermInfo(size).0) == size.value.0
  {
  }

  /** Appending a value raises the value column only when the value fits and is longer. */
  lemma LongestValueThatFitsSnoc(values: seq<Bytes>, v: Bytes, longestKey: nat, width: int)
    ensures LongestValueThatFits(values + [v], longestKey, width) ==
      var m := LongestValueThatFits(values, longestKey, width);
      if Fits(v, longestKey, width) && |TrimSpace(v)| > m then |TrimSpace(v)| else m
  {
    var c := values + [v];
    assert c[..|c| - 1] == values && c[|c| - 1] == v;
  }

  /** A value that does not fit, wherever it stands, leaves the value column as it was. */
  lemma {:induction false} NonFittingValueIgnored(a: seq<Bytes>, v: Bytes, b: seq<Bytes>, longestKey: nat, width: int)
    requires !Fits(v, longestKey, width)
    ensures LongestValueThatFits(a + [v] + b, longestKey, width) == LongestValueThatFits(a + b, longestKey, width)
  {
    if b == [] {
      assert a + [v] + b == a + [v] && a + b == a;
      LongestValueThatFitsSnoc(a, v, longestKey, width);
    } else {
      var b', last := b[..|b| - 1], b[|b| - 1];
      var withV, withoutV := a + [v] + b', a + b';
      assert a + [v] + b == withV + [last] && a + b == withoutV + [last];
      NonFittingValueIgnored(a, v, b', longestKey, width);
      LongestValueThatFitsSnoc(withV, last, longestKey, width);
      LongestValueThatFitsSnoc(withoutV, last, longestKey, width);
    }
  }

  /** Each pair is inline exactly when its trimmed value fits beside the widest key, and its lines show the trimmed key and value. */
  lemma InlineIffFits(keys: seq<Bytes>, values: seq<Bytes>, width: int, i: nat)
    requires |keys| == |values| && i < |keys|
    ensures Plan(keys, values, width)[i].Inline? <==> Fits(values[i], LongestKey(keys), width)
    ensures Plan(keys, values, width)[i].Inline? ==>
      Plan(keys, values, width)[i].row ==
        InlineRow(TrimSpace(keys[i]), LongestKey(keys), TrimSpace(values[i]),
                  LongestValueThatFits(values, LongestKey(keys), width))
    ensures Plan(keys, values, width)[i].Overflow? ==>
      Plan(keys, values, width)[i].keyLine == KeyLine(TrimSpace(keys[i]), LongestKey(keys)) &&
      Plan(keys, values, width)[i].value == TrimSpace(values[i])
  {
  }

  /**
   * Every inline row is equally wide: indent, key column, value column and
   * delimiters. Neither cell needs more than its column: the key is at most
   * the longest key, and an inline value fits, so it is at most the longest
   * value that fits.
   */
  lemma InlineRowsAligned(keys: seq<Bytes>, values: seq<Bytes>, width: int, i: nat)
    requires |keys| == |values| && i < |keys| && Plan(keys, values, width)[i].Inline?
    requires width <= MaxWidth
    ensures |TrimSpace(keys[i])| <= LongestKey(keys)
    ensures |TrimSpace(values[i])| <= LongestValueThatFits(values, LongestKey(keys), width)
    ensures RuneCount(Plan(keys, values, width)[i].row) ==
      KvIndent + LongestKey(keys) + LongestValueThatFits(values, LongestKey(keys), width) + 7
  {
    var longestKey := LongestKey(keys);
    var longestValue := LongestValueThatFits(values, longestKey, width);
    var key, value := TrimSpace(keys[i]), TrimSpace(values[i]);
    assert Plan(keys, values, width)[i] == Group(keys[i], values[i], longestKey, longestValue, width);
    assert Fits(values[i], longestKey, width);
    LongestValueThatFitsIsMax(values, longestKey, width);
    assert RuneCount(key) <= |key| <= |keys[i]| <= longestKey <= MaxWidth;
    assert RuneCount(value) <= |value| <= longestValue <= MaxWidth;
    InlineRowRunes(key, longestKey, value, longestValue);
  }

  /** For ASCII keys and values the rows are equally long in bytes too. */
  lemma InlineRowsAlignedAscii(keys: seq<Bytes>, values: seq<Bytes>, width: int, i: nat)
    requires |keys| == |values| && i < |keys| && Plan(keys, values, width)[i].Inline?
    requires width <= MaxWidth
    requires AllAscii(TrimSpace(keys[i])) && AllAscii(TrimSpace(values[i]))
    ensures |Plan(keys, values, width)[i].row| ==
      KvIndent + LongestKey(keys) + LongestValueThatFits(values, LongestKey(keys), width) + 7
  {
    var longestKey := LongestKey(keys);
    var longestValue := LongestValueThatFits(values, longestKey, width);
    var key, value := TrimSpace(keys[i]), TrimSpace(values[i]);
    assert Plan(keys, values, width)[i] == Group(keys[i], values[i], longestKey, longestValue, width);
    assert Fits(values[i], longestKey, width);
    LongestValueThatFitsIsMax(values, longestKey, width);
    assert |key| <= |keys[i]| <= longestKey <= MaxWidth;
    assert |value| <= longestValue <= MaxWidth;
    InlineRowAscii(key, longestKey, value, longestValue);
  }

  /** The key line of an overflow block lines up with the key column of the inline rows. */
  lemma OverflowKeyAligned(keys: seq<Bytes>, values: seq<Bytes>, width: int, i: nat)
    requires |keys| == |values| && i < |keys| && Plan(keys, values, width)[i].Overflow?
    ensures |TrimSpace(keys[i])| <= LongestKey(keys)
    ensures LongestKey(keys) <= MaxWidth ==>
      RuneCount(Plan(keys, values, width)[i].keyLine) == KvIndent + LongestKey(keys) + 4
  {
    var longestKey, key := LongestKey(keys), TrimSpace(keys[i]);
    var g := Plan(keys, values, width)[i];
    assert g == Group(keys[i], values[i], longestKey, LongestValueThatFits(values, longestKey, width), width);
    assert g.keyLine == KeyLine(key, longestKey);
    assert RuneCount(key) <= |key| <= |keys[i]| <= longestKey;
    if longestKey <= MaxWidth {
      KeyLineRunes(key, longestKey);
    }
  }

  /** A key column wider than `fmt` accepts: the key line holds `%!(BADWIDTH)` and the bare key. */
  lemma KeyLineBadWidth(key: Bytes, keyWidth: nat)
    requires keyWidth > MaxWidth
    ensures KeyLine(key, keyWidth) == Spaces(KvIndent) + CellOpen + BadWidth + key + CellClose
  {
    IndentIsSpaces();
  }

  /**
   * When the longest key is wider than `fmt` accepts and the terminal is no
   * wider than the indent plus that cap, every pair overflows, and each key
   * line carries `%!(BADWIDTH)` and the bare key in place of the key column.
   */
  lemma KeyColumnTooWide(keys: seq<Bytes>, values: seq<Bytes>, width: int, i: nat)
    requires |keys| == |values| && i < |keys|
    requires LongestKey(keys) > MaxWidth && width <= KvIndent + MaxWidth
    ensures Plan(keys, values, width)[i].Overflow?
    ensures Plan(keys, values, width)[i].keyLine == Spaces(KvIndent) + CellOpen + BadWidth + TrimSpace(keys[i]) + CellClose
  {
    var longestKey := LongestKey(keys);
    var g := Plan(keys, values, width)[i];
    assert g == Group(keys[i], values[i], longestKey, LongestValueThatFits(values, longestKey, width), width);
    assert !Fits(values[i], longestKey, width);
    assert g.keyLine == KeyLine(TrimSpace(keys[i]), longestKey);
    KeyLineBadWidth(TrimSpace(keys[i]), longestKey);
  }

  /**
   * The fit boundary on the default 80 columns with a 6-byte longest key: a
   * 62-byte trimmed value stays inline, a 63-byte one overflows.
   */
  lemma FitBoundary(keys: seq<Bytes>, values: seq<Bytes>, reported: int, i: nat)
    requires |keys| == |values| && i < |keys|
    requires reported == 0 || reported == 80
    requires LongestKey(keys) == 6
    ensures |TrimSpace(values[i])| == 62 ==> Plan(keys, values, EffectiveWidth(reported))[i].Inline?
    ensures |TrimSpace(values[i])| == 63 ==> Plan(keys, values, EffectiveWidth(reported))[i].Overflow?
  {
  }

  /** Number of pairs laid out as overflow blocks. */
  function OverflowCount(groups: seq<RowGroup>): nat {
    if groups == [] then 0
    else OverflowCount(groups[..|groups| - 1]) + (if groups[|groups| - 1].Overflow? then 1 else 0)
  }

  /** One line per inline pair, two per overflow block. */
  lemma {:induction false} LinesLength(groups: seq<RowGroup>)
    ensures |Lines(groups)| == |groups| + OverflowCount(groups)
  {
    if groups != [] {
      LinesLength(groups[..|groups| - 1]);
    }
  }

  lemma {:induction false} LinesAppend(a: seq<RowGroup>, b: seq<RowGroup>)
    ensures Lines(a + b) == Lines(a) + Lines(b)
  {
    if b == [] {
      assert a + b == a;
    } else {
      var c, init := a + b, b[..|b| - 1];
      assert c[..|c| - 1] == a + init;
      assert c[|c| - 1] == b[|b| - 1];
      LinesAppend(a, init);
      calc {
        Lines(c);
        Lines(a + init) + GroupLines(b[|b| - 1]);
        Lines(a) + Lines(init) + GroupLines(b[|b| - 1]);
        Lines(a) + (Lines(init) + GroupLines(b[|b| - 1]));
        Lines(a) + Lines(b);
      }
    }
  }

  /** Groups print in input order: a group's lines sit between those of the groups before it and those after it. */
  lemma LinesAround(before: seq<RowGroup>, g: RowGroup, after: seq<RowGroup>)
    ensures Lines(before + [g] + after) == Lines(before) + GroupLines(g) + Lines(after)
  {
    var upTo := before + [g];
    assert upTo[..|upTo| - 1] == before;
    assert Lines(upTo) == Lines(before) + GroupLines(g);
    LinesAppend(upTo, after);
  }

  /**
   * An odd argument count prints the diagnostic and the header and no row; an
   * even one prints the header and then one row group per pair.
   */
  lemma RenderShape(msg: Bytes, icon: Bytes, fields: seq<Bytes>, now: Bytes, reported: int)
    ensures |fields| % 2 != 0 ==> Render(msg, icon, fields, now, reported) == [Diagnostic(), Header(now, icon, msg)]
    ensures fields == [] ==> Render(msg, icon, fields, now, reported) == [Header(now, icon, msg)]
    ensures |fields| % 2 == 0 ==>
      && Render(msg, icon, fields, now, reported)[0] == Header(now, icon, msg)
      && |Plan(FieldKeys(fields), FieldValues(fields), EffectiveWidth(reported))| == |fields| / 2
      && |Render(msg, icon, fields, now, reported)| ==
         1 + |fields| / 2 + OverflowCount(Plan(FieldKeys(fields), FieldValues(fields), EffectiveWidth(reported)))
  {
    if |fields| % 2 == 0 {
      LinesLength(Plan(FieldKeys(fields), FieldValues(fields), EffectiveWidth(reported)));
    }
    if fields == [] {
      assert Plan(FieldKeys(fields), FieldValues(fields), EffectiveWidth(reported)) == [];
    }
  }

  /** The loop of `printTUI` that finds the longest key. */
  method MeasureKeys(headers: seq<Bytes>) returns (longestKey: nat)
    ensures longestKey == LongestKey(headers)
  {
    longestKey := 0;
    for i := 0 to |headers|
      invariant longestKey == LongestKey(headers[..i])
    {
      assert headers[..i + 1][..i] == headers[..i];
      if |headers[i]| > longestKey {
        longestKey := |headers[i]|;
      }
    }
    assert headers[..|headers|] == headers;
  }

  /** The loop of `printTUI` that finds the longest trimmed value that fits. */
  method MeasureValues(values: seq<Bytes>, longestKey: nat, width: int) returns (longestValueThatFits: nat)
    ensures longestValueThatFits == LongestValueThatFits(values, longestKey, width)
  {
    longestValueThatFits := 0;
    for i := 0 to |values|
      invariant longestValueThatFits == LongestValueThatFits(values[..i], longestKey, width)
    {
      assert values[..i + 1][..i] == values[..i];
      var trimmedValue := TrimSpace(values[i]);
      var expectedLength := KvIndent + longestKey + |trimmedValue|;
      if expectedLength <= width && |trimmedValue| > longestValueThatFits {
        longestValueThatFits := |trimmedValue|;
      }
    }
    assert values[..|values|] == values;
  }

  /** The row groups of the pairs with the column widths already fixed, in input order. */
  function Groups(keys: seq<Bytes>, values: seq<Bytes>, longestKey: nat, longestValue: nat, width: int): (groups: seq<RowGroup>)
    requires |keys| == |values|
    ensures |groups| == |keys|
    ensures forall i :: 0 <= i < |keys| ==> groups[i] == Group(keys[i], values[i], longestKey, longestValue, width)
  {
    seq(|keys|, i requires 0 <= i < |keys| => Group(keys[i], values[i], longestKey, longestValue, width))
  }

  /** The loop of `printTUI` that prints one row group per pair. */
  method EmitRows(headers: seq<Bytes>, values: seq<Bytes>, longestKey: nat, longestValueThatFits: nat, width: int)
    returns (out: seq<Bytes>)
    requires |headers| == |values|
    ensures out == Lines(Groups(headers, values, longestKey, longestValueThatFits, width))
  {
    ghost var groups := Groups(headers, values, longestKey, longestValueThatFits, width);
    out := [];
    for i := 0 to |headers|
      invariant out == Lines(groups[..i])
    {
      var key := TrimSpace(headers[i]);
      var trimmedValue := TrimSpace(values[i]);
      LinesSnoc(groups, i);
      if KvIndent + longestKey + |trimmedValue| <= width {
        out := out + [InlineRow(key, longestKey, trimmedValue, longestValueThatFits)];
      } else {
        out := out + [KeyLine(key, longestKey), trimmedValue];
      }
    }
    assert groups[..|headers|] == groups;
  }

  /** On an even argument count the header is followed by the lines of the row groups, and nothing else. */
  lemma RenderEven(msg: Bytes, icon: Bytes, fields: seq<Bytes>, now: Bytes, reported: int)
    requires |fields| % 2 == 0
    ensures Render(msg, icon, fields, now, reported) ==
      [Header(now, icon, msg)] + Lines(Plan(FieldKeys(fields), FieldValues(fields), EffectiveWidth(reported)))
  {
  }

  /** `printTUI(msg, icon, fields...)`, with the terminal's reported width and the time of day as inputs. */
  method PrintTUI(msg: Bytes, icon: Bytes, fields: seq<Bytes>, now: Bytes, reported: int) returns (out: seq<Bytes>)
    ensures out == Render(msg, icon, fields, now, reported)
  {
    out := [];
    var headers, values, err := KvParse(fields);
    if err.Some? {
      out := out + [Diagnostic()];
    }
    var message := Header(now, icon, msg);
    if |headers| != |values| {
      // KvParse hands back as many keys as values, even on error: never reached
      assert false;
      out := out + [Diagnostic()];
      return;
    }
    out := out + [message];

    var width := reported;
    if width == 0 {
      width := DefaultWidth;
    }
    var longestKey := MeasureKeys(headers);
    var longestValueThatFits := MeasureValues(values, longestKey, width);
    var rows := EmitRows(headers, values, longestKey, longestValueThatFits, width);
    out := out + rows;

    if err.Some? {
      assert rows == Lines([]) == [];
      assert |out| == 2 && out[0] == Diagnostic() && out[1] == message;
    } else {
      assert |out| == 1 + |rows|;
      assert out[0] == message;
      assert out[1..] == rows;
      RenderEven(msg, icon, fields, now, reported);
    }
  }
}
