/**
 * The part of btcd's `txscript.ScriptBuilder` that `AttachSignature` uses:
 * `AddData` appends one data push in its canonical (minimal) form, the
 * form BIP 62 requires, and the builder records the first size violation
 * as a sticky error that `Script()` reports.
 *
 * Minimal pushes: empty data and the single byte 0 become OP_0, a single
 * byte 1..16 becomes OP_1..OP_16, the single byte 0x81 becomes OP_1NEGATE;
 * otherwise up to 75 bytes are pushed by a one-byte length opcode, and
 * longer data by OP_PUSHDATA1, OP_PUSHDATA2 or OP_PUSHDATA4 with a 1-, 2- or
 * 4-byte little-endian length. `ParsePush` reads one push back.
 */
module Script {
  import opened Wrappers
  import opened Bytes

  const OP_0: Byte := 0x00
  const OP_PUSHDATA1: Byte := 0x4c
  const OP_PUSHDATA2: Byte := 0x4d
  const OP_PUSHDATA4: Byte := 0x4e
  const OP_1NEGATE: Byte := 0x4f
  const OP_1: Byte := 0x51
  const OP_16: Byte := 0x60

  /** `txscript.MaxScriptSize`. */
  const MAX_SCRIPT_SIZE: nat := 10000

  /** `txscript.MaxScriptElementSize`. */
  const MAX_SCRIPT_ELEMENT_SIZE: nat := 520

  /** Data that the builder pushes with a single small-integer opcode. */
  predicate IsSmallInt(data: seq<Byte>)
  {
    |data| == 0 || (|data| == 1 && (data[0] <= 16 || data[0] == 0x81))
  }

  /** `canonicalDataSize`: how many bytes the canonical push of `data` takes. */
  function CanonicalDataSize(data: seq<Byte>): (size: nat)
  {
    var n := |data|;
    if IsSmallInt(data) then 1
    else if n < OP_PUSHDATA1 as int then 1 + n
    else if n <= 0xff then 2 + n
    else if n <= 0xffff then 3 + n
    else 5 + n
  }

  /** `addData`: the canonical push of `data`. */
  function PushData(data: seq<Byte>): (r: seq<Byte>)
    ensures |r| == CanonicalDataSize(data)
    ensures !IsSmallInt(data) ==> r[|r| - |data|..] == data
  {
    var n := |data|;
    if n == 0 || (n == 1 && data[0] == 0) then [OP_0]
    else if n == 1 && data[0] <= 16 then [(OP_1 - 1) + data[0]]
    else if n == 1 && data[0] == 0x81 then [OP_1NEGATE]
    else if n < OP_PUSHDATA1 as int then [n] + data
    else if n <= 0xff then [OP_PUSHDATA1, n] + data
    else if n <= 0xffff then [OP_PUSHDATA2] + LE(n, 2) + data
    else [OP_PUSHDATA4] + LE(n, 4) + data
  }

  /** A `ScriptBuilder`: the script so far and the first error, if any. */
  datatype Builder = Builder(script: seq<Byte>, err: Option<string>)

  /** `NewScriptBuilder()`. */
  function NewBuilder(): (b: Builder)
    ensures b.script == [] && b.err == None
  {
    Builder([], None)
  }

  /**
   * `ScriptBuilder.AddData`: a builder that has failed stays as it is; a push
   * that would make the script longer than 10000 bytes, or data longer than
   * 520 bytes, sets the error and leaves the script as it is; otherwise the
   * canonical push is appended.
   */
  function AddData(b: Builder, data: seq<Byte>): (r: Builder)
    ensures r.err.None? <==>
              b.err.None? && |b.script| + CanonicalDataSize(data) <= MAX_SCRIPT_SIZE
              && |data| <= MAX_SCRIPT_ELEMENT_SIZE
    ensures r.err.None? ==> r.script == b.script + PushData(data)
    ensures r.err.Some? ==> r.script == b.script
    ensures b.err.Some? ==> r == b
  {
    if b.err.Some? then b
    else if |b.script| + CanonicalDataSize(data) > MAX_SCRIPT_SIZE then
      Builder(b.script, Some("adding data would exceed the maximum allowed canonical script length"))
    else if |data| > MAX_SCRIPT_ELEMENT_SIZE then
      Builder(b.script, Some("adding a data element would exceed the maximum allowed script element size"))
    else Builder(b.script + PushData(data), None)
  }

  /** What a push of `data` leaves on the stack: OP_0 stands for the empty string, so the byte 0 is not kept. */
  function PushedValue(data: seq<Byte>): (v: seq<Byte>)
    ensures data != [0] ==> v == data
    ensures data == [0] ==> v == []
  {
    if data == [0] then [] else data
  }

  /** Reads one push operation: the data it pushes and the rest of the script. */
  function ParsePush(s: seq<Byte>): (r: Option<(seq<Byte>, seq<Byte>)>)
  {
    if s == [] then None
    else
      var op := s[0];
      if op == OP_0 then Some(([], s[1..]))
      else if op < OP_PUSHDATA1 then
        if |s| < 1 + op then None else Some((s[1..1 + op], s[1 + op..]))
      else if op == OP_PUSHDATA1 || op == OP_PUSHDATA2 || op == OP_PUSHDATA4 then
        var width := if op == OP_PUSHDATA1 then 1 else if op == OP_PUSHDATA2 then 2 else 4;
        if |s| < 1 + width then None
        else
          var n := FromLE(s[1..1 + width]);
          if |s| < 1 + width + n then None
          else Some((s[1 + width..1 + width + n], s[1 + width + n..]))
      else if op == OP_1NEGATE then Some(([0x81], s[1..]))
      else if OP_1 <= op <= OP_16 then Some(([op - (OP_1 - 1)], s[1..]))
      else None
  }

  /** Reads a script made only of pushes into the list of pushed values. */
  function ParsePushes(s: seq<Byte>): (r: Option<seq<seq<Byte>>>)
    decreases |s|
  {
    if s == [] then Some([])
    else
      match ParsePush(s)
      case None => None
      case Some((v, rest)) =>
        if |rest| >= |s| then None
        else
          match ParsePushes(rest)
          case None => None
          case Some(vs) => Some([v] + vs)
  }

  /** An OP_PUSHDATA push of `n` bytes with a `width`-byte length reads back. */
  lemma ParseLongPush(op: Byte, width: nat, data: seq<Byte>, rest: seq<Byte>)
    requires (op == OP_PUSHDATA1 && width == 1) || (op == OP_PUSHDATA2 && width == 2) || (op == OP_PUSHDATA4 && width == 4)
    requires |data| < Pow256(width)
    ensures ParsePush([op] + LE(|data|, width) + data + rest) == Some((data, rest))
  {
    var n := |data|;
    var s := [op] + LE(n, width) + data + rest;
    FromLEOfLE(n, width);
    assert s[1..1 + width] == LE(n, width);
    assert s[1 + width..1 + width + n] == data;
    assert s[1 + width + n..] == rest;
  }

  /** A single-opcode push of a small integer reads back. */
  lemma ParseSmallPush(data: seq<Byte>, rest: seq<Byte>)
    requires IsSmallInt(data)
    ensures ParsePush(PushData(data) + rest) == Some((PushedValue(data), rest))
  {
    var s := PushData(data) + rest;
    assert s[1..] == rest;
    if |data| == 0 || data[0] == 0 {
      assert s[0] == OP_0;
    } else if data[0] <= 16 {
      assert s[0] == OP_1 - 1 + data[0];
      assert [s[0] - (OP_1 - 1)] == data;
    } else {
      assert s[0] == OP_1NEGATE;
      assert data == [0x81];
    }
  }

  /** A push of 2 to 75 bytes behind a one-byte length reads back. */
  lemma ParseDirectPush(data: seq<Byte>, rest: seq<Byte>)
    requires !IsSmallInt(data) && |data| < OP_PUSHDATA1 as int
    ensures ParsePush(PushData(data) + rest) == Some((data, rest))
  {
    var n := |data|;
    var s := PushData(data) + rest;
    assert s == [n as Byte] + (data + rest);
    assert s[1..1 + n] == data && s[1 + n..] == rest;
  }

  /** Reading a canonical push gives back what it pushes (data under 4 GiB). */
  lemma ParsePushData(data: seq<Byte>, rest: seq<Byte>)
    requires |data| < TWO_32
    ensures ParsePush(PushData(data) + rest) == Some((PushedValue(data), rest))
  {
    var n := |data|;
    if IsSmallInt(data) {
      ParseSmallPush(data, rest);
    } else if n < OP_PUSHDATA1 as int {
      ParseDirectPush(data, rest);
    } else {
      Pow256Widths();
      if n <= 0xff {
        assert LE(n, 1) == [n as Byte];
        assert PushData(data) == [OP_PUSHDATA1] + LE(n, 1) + data;
        ParseLongPush(OP_PUSHDATA1, 1, data, rest);
      } else if n <= 0xffff {
        ParseLongPush(OP_PUSHDATA2, 2, data, rest);
      } else {
        ParseLongPush(OP_PUSHDATA4, 4, data, rest);
      }
    }
  }

  /**
   * A script of two canonical pushes reads back as exactly the two pushed
   * values, in order.
   */
  lemma ParseTwoPushes(a: seq<Byte>, b: seq<Byte>)
    requires |a| < TWO_32 && |b| < TWO_32
    ensures ParsePushes(PushData(a) + PushData(b)) == Some([PushedValue(a), PushedValue(b)])
  {
    var pa, pb := PushData(a), PushData(b);
    ParsePushData(a, pb);
    ParsePushData(b, []);
    assert pb + [] == pb;
    assert ParsePush(pb) == Some((PushedValue(b), []));
    assert ParsePushes([]) == Some([]);
    assert [PushedValue(b)] + [] == [PushedValue(b)];
    assert ParsePushes(pb) == Some([PushedValue(b)]);
    assert ParsePush(pa + pb) == Some((PushedValue(a), pb));
    assert [PushedValue(a)] + [PushedValue(b)] == [PushedValue(a), PushedValue(b)];
  }

  /** A push costs at most five bytes beyond its data. */
  lemma CanonicalDataSizeBound(data: seq<Byte>)
    ensures CanonicalDataSize(data) <= |data| + 5
  {
  }

  /**
   * Two pushes on a fresh builder: within the 520-byte element limit the
   * 10000-byte script limit cannot be reached, so the builder fails exactly
   * when one of the two elements is too long.
   */
  lemma AddTwoData(a: seq<Byte>, b: seq<Byte>)
    ensures var r := AddData(AddData(NewBuilder(), a), b);
            && (r.err.None? <==> |a| <= MAX_SCRIPT_ELEMENT_SIZE && |b| <= MAX_SCRIPT_ELEMENT_SIZE)
            && (r.err.None? ==> r.script == PushData(a) + PushData(b))
  {
    var empty := NewBuilder();
    var first := AddData(empty, a);
    var r := AddData(first, b);
    if |a| <= MAX_SCRIPT_ELEMENT_SIZE && |b| <= MAX_SCRIPT_ELEMENT_SIZE {
      CanonicalDataSizeBound(a);
      CanonicalDataSizeBound(b);
      assert first.err.None?;
      assert first.script == PushData(a) by {
        assert [] + PushData(a) == PushData(a);
      }
      assert |first.script| + CanonicalDataSize(b) <= MAX_SCRIPT_SIZE;
      assert r.err.None?;
    } else {
      assert r.err.Some?;
    }
  }
}
