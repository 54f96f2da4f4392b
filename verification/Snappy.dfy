/**
 The raw Snappy block decoder (sections 2.1 and 2.2 of the Snappy compressed format
 description), proved against the format: a stream is a size and a list of elements.
 Shifts and masks of the original are written as divisions and remainders.
 */
module Snappy {
  import opened Bytes
  import opened Wrappers

  const LIMIT: int := 65536

  datatype Error = CompressedLimit | Truncated | Varint | ExpandedLimit | OutputOverflow | CopyBounds | SizeMismatch

  datatype Element = Literal(data: bytes) | Copy(offset: nat, length: nat)

  // What elements mean.

  /** Where in the repeated part a byte of the copy comes from. */
  function Phase(i: nat, offset: nat): (r: nat)
    requires 0 < offset
    ensures r < offset
  {
    i % offset
  }

  /** The last offset bytes, repeated as often as needed to give so many bytes. */
  function Periodic(out: bytes, offset: nat, length: nat): (r: bytes)
    requires 0 < offset <= |out|
    ensures |r| == length
  {
    seq(length, i requires 0 <= i < length => out[|out| - offset + Phase(i, offset)])
  }

  function Length(element: Element): nat {
    match element
    case Literal(data) => |data|
    case Copy(_, length) => length
  }

  predicate Applicable(out: bytes, element: Element) {
    element.Copy? ==> 0 < element.offset <= |out|
  }

  function Apply(out: bytes, element: Element): (r: bytes)
    requires Applicable(out, element)
    ensures |r| == |out| + Length(element)
  {
    match element
    case Literal(data) => out + data
    case Copy(offset, length) => out + Periodic(out, offset, length)
  }

  /** The output of a list of elements, if every copy reaches back only into the output before it. */
  function Expand(out: bytes, elements: seq<Element>): (r: Option<bytes>)
    ensures r.Some? ==> |out| <= |r.value|
    decreases |elements|
  {
    if elements == [] then Some(out)
    else if !Applicable(out, elements[0]) then None
    else Expand(Apply(out, elements[0]), elements[1..])
  }

  // How a stream spells them. An element may have several spellings; form chooses one.

  datatype Piece = Piece(element: Element, form: nat)

  predicate Spellable(p: Piece) {
    match p.element
    case Literal(data) =>
      0 < |data| && p.form <= 4 && if p.form == 0 then |data| <= 60 else |data| - 1 < Pow256(p.form)
    case Copy(offset, length) =>
      match p.form
      case 1 => 4 <= length <= 11 && offset < 2048
      case 2 => 1 <= length <= 64 && offset < Pow256(2)
      case 3 => 1 <= length <= 64 && offset < Pow256(4)
      case _ => false
  }

  function Spell(p: Piece): (r: bytes)
    requires Spellable(p)
    ensures 2 <= |r|
  {
    match p.element
    case Literal(data) =>
      if p.form == 0 then [4 * (|data| - 1)] + data
      else [4 * (59 + p.form)] + Little(|data| - 1, p.form) + data
    case Copy(offset, length) =>
      if p.form == 1 then [1 + 4 * (length - 4) + 32 * (offset / 256), offset % 256]
      else if p.form == 2 then [2 + 4 * (length - 1)] + Little(offset, 2)
      else [3 + 4 * (length - 1)] + Little(offset, 4)
  }

  ghost predicate AllSpellable(pieces: seq<Piece>) {
    forall i :: 0 <= i < |pieces| ==> Spellable(pieces[i])
  }

  ghost function SpellAll(pieces: seq<Piece>): bytes
    requires AllSpellable(pieces)
  {
    if pieces == [] then [] else Spell(pieces[0]) + SpellAll(pieces[1..])
  }

  function ElementsOf(pieces: seq<Piece>): (r: seq<Element>)
    ensures |r| == |pieces|
  {
    if pieces == [] then [] else [pieces[0].element] + ElementsOf(pieces[1..])
  }

  /** A size header: continued bytes first, low groups of seven bits first. */
  predicate IsHeader(h: bytes) {
    h != [] && (if |h| == 1 then h[0] < 128 else h[0] >= 128 && IsHeader(h[1..]))
  }

  function HeaderValue(h: bytes): nat {
    if h == [] then 0 else h[0] % 128 + 128 * HeaderValue(h[1..])
  }

  // The decoder.

  /** Reads the size header from byte i on; gives its value and where it ends. */
  function ReadSize(data: bytes, i: nat): (r: Result<(nat, nat), Error>)
    requires i <= |data|
    ensures r.Ok? ==> i < r.value.1 <= |data|
    decreases |data| - i
  {
    var _ :- Need(i < 5, Varint);
    var _ :- Need(i < |data|, Truncated);
    if data[i] < 128 then Ok((data[i], i + 1)) else
    var (high, end) :- ReadSize(data, i + 1);
    Ok((data[i] % 128 + 128 * high, end))
  }

  function Take(data: bytes, pos: nat, n: nat): (r: Result<bytes, Error>)
    ensures r.Ok? ==> pos + n <= |data| && r.value == data[pos..pos + n]
  {
    if pos + n > |data| then Err(Truncated) else Ok(data[pos..pos + n])
  }

  function ReadElement(data: bytes, pos: nat, produced: nat, size: nat): (r: Result<(Element, nat), Error>)
    requires pos < |data| && produced <= size
    ensures r.Ok? ==> pos < r.value.1 <= |data| && produced + Length(r.value.0) <= size
    ensures r.Ok? && r.value.0.Copy? ==> 0 < r.value.0.offset <= produced
  {
    var tag := data[pos];
    if tag % 4 == 0 then
      var wide := if tag / 4 < 60 then 0 else tag / 4 - 59;
      var count :- Take(data, pos + 1, wide);
      var n := if wide == 0 then tag / 4 + 1 else FromLittle(count) + 1;
      var _ :- Need(produced + n <= size, OutputOverflow);
      var literal :- Take(data, pos + 1 + wide, n);
      Ok((Literal(literal), pos + 1 + wide + n))
    else
      var wide := if tag % 4 == 1 then 1 else if tag % 4 == 2 then 2 else 4;
      var n := if tag % 4 == 1 then 4 + tag / 4 % 8 else 1 + tag / 4;
      var low :- Take(data, pos + 1, wide);
      var offset := if tag % 4 == 1 then tag / 32 * 256 + low[0] else FromLittle(low);
      var _ :- Need(0 < offset <= produced && produced + n <= size, CopyBounds);
      Ok((Copy(offset, n), pos + 1 + wide))
  }

  function Run(data: bytes, pos: nat, out: bytes, size: nat): (r: Result<bytes, Error>)
    requires pos <= |data| && |out| <= size
    decreases |data| - pos
  {
    if pos == |data| then
      var _ :- Need(|out| == size, SizeMismatch);
      Ok(out)
    else
      var (element, next) :- ReadElement(data, pos, |out|, size);
      Run(data, next, Apply(out, element), size)
  }

  function Decode(data: bytes): (r: Result<bytes, Error>) {
    var _ :- Need(|data| <= LIMIT, CompressedLimit);
    var (size, pos) :- ReadSize(data, 0);
    var _ :- Need(size <= LIMIT, ExpandedLimit);
    Run(data, pos, [], size)
  }

  // The decoder as it runs, one output byte at a time.

  lemma PeriodicStep(before: bytes, offset: nat, k: nat)
    requires 0 < offset <= |before|
    ensures var out := before + Periodic(before, offset, k);
      out + [out[|out| - offset]] == before + Periodic(before, offset, k + 1)
  {
    PhaseShift(k, offset);
    hide Phase;
    var out := before + Periodic(before, offset, k);
    if k < offset {
      assert out[|out| - offset] == before[|before| - offset + Phase(k, offset)];
    } else {
      assert out[|out| - offset] == Periodic(before, offset, k)[k - offset];
    }
  }

  lemma PhaseShift(k: nat, offset: nat)
    requires 0 < offset
    ensures if k < offset then Phase(k, offset) == k else Phase(k - offset, offset) == Phase(k, offset)
  {
    if k >= offset {
      ModuloShift(k, offset);
    }
  }

  lemma ModuloShift(k: nat, offset: nat)
    requires 0 < offset <= k
    ensures (k - offset) % offset == k % offset
  {
    var q, r := k / offset, k % offset;
    assert k == q * offset + r;
    assert k - offset == (q - 1) * offset + r;
    QuotientUnique(k - offset, offset, q - 1, r);
  }

  lemma AtLeastOnce(m: int, d: int)
    requires 1 <= m && 0 < d
    ensures d <= m * d
  {
  }

  lemma SmallMultiple(m: int, d: int)
    requires 0 < d && -d < m * d < d
    ensures m == 0
  {
    if m >= 1 {
      AtLeastOnce(m, d);
    } else if m <= -1 {
      AtLeastOnce(-m, d);
    }
  }

  lemma QuotientUnique(x: int, d: nat, q: int, r: int)
    requires 0 < d && x == q * d + r && 0 <= r < d
    ensures x % d == r
  {
    assert x == x / d * d + x % d;
    assert (q - x / d) * d == q * d - x / d * d;
    SmallMultiple(q - x / d, d);
  }

  /** Appends byte by byte, so a copy may read what it has itself written. */
  method CopyBytes(before: bytes, offset: nat, length: nat) returns (out: bytes)
    requires 0 < offset <= |before|
    ensures out == before + Periodic(before, offset, length)
  {
    out := before;
    for k := 0 to length
      invariant out == before + Periodic(before, offset, k)
    {
      PeriodicStep(before, offset, k);
      out := out + [out[|out| - offset]];
    }
  }

  method ReadHeader(data: bytes) returns (r: Result<(nat, nat), Error>)
    ensures r == ReadSize(data, 0)
  {
    var size: nat, weight: nat, pos: nat := 0, 1, 0;
    while pos < 5
      invariant pos <= 5 && pos <= |data| && weight >= 1
      invariant match ReadSize(data, pos)
        case Ok(rest) => ReadSize(data, 0) == Ok((size + weight * rest.0, rest.1))
        case Err(e) => ReadSize(data, 0) == Err(e)
    {
      if pos >= |data| {
        return Err(Truncated);
      }
      var b := data[pos];
      ghost var rest := ReadSize(data, pos + 1);
      if rest.Ok? {
        Regroup(size, weight, b % 128, rest.value.0);
      }
      size := size + weight * (b % 128);
      pos := pos + 1;
      if b < 128 {
        return Ok((size, pos));
      }
      weight := weight * 128;
    }
    r := Err(Varint);
  }

  lemma Regroup(size: nat, weight: nat, low: nat, high: nat)
    ensures size + weight * (low + 128 * high) == size + weight * low + weight * 128 * high
  {
  }

  method Decompress(data: bytes) returns (r: Result<bytes, Error>)
    ensures r == Decode(data)
  {
    if |data| > LIMIT {
      return Err(CompressedLimit);
    }
    var header := ReadHeader(data);
    if header.Err? {
      return Err(header.error);
    }
    var (size, pos) := header.value;
    if size > LIMIT {
      return Err(ExpandedLimit);
    }
    var out: bytes := [];
    while pos < |data|
      invariant pos <= |data| && |out| <= size
      invariant Decode(data) == Run(data, pos, out, size)
      decreases |data| - pos
    {
      var next := ReadElement(data, pos, |out|, size);
      if next.Err? {
        return Err(next.error);
      }
      match next.value.0 {
        case Literal(literal) => out := out + literal;
        case Copy(offset, length) => out := CopyBytes(out, offset, length);
      }
      pos := next.value.1;
    }
    if |out| != size {
      return Err(SizeMismatch);
    }
    r := Ok(out);
  }

  // The decoder against the format, in both directions.

  lemma {:induction false} ReadSizeBack(h: bytes, data: bytes, i: nat)
    requires IsHeader(h) && i + |h| <= 5 && i + |h| <= |data| && data[i..i + |h|] == h
    ensures ReadSize(data, i) == Ok((HeaderValue(h), i + |h|))
    decreases |h|
  {
    assert data[i] == h[0];
    if |h| > 1 {
      assert data[i + 1..i + |h|] == h[1..];
      ReadSizeBack(h[1..], data, i + 1);
    } else {
      assert HeaderValue(h[1..]) == 0;
    }
  }

  lemma {:induction false} ReadSizeIsHeader(data: bytes, i: nat)
    requires i <= |data| && ReadSize(data, i).Ok?
    ensures var (size, end) := ReadSize(data, i).value;
      end <= 5 && IsHeader(data[i..end]) && HeaderValue(data[i..end]) == size
    decreases |data| - i
  {
    var (size, end) := ReadSize(data, i).value;
    if data[i] >= 128 {
      ReadSizeIsHeader(data, i + 1);
      assert data[i..end][1..] == data[i + 1..end];
    } else {
      assert HeaderValue(data[i..end][1..]) == 0;
    }
  }

  lemma SliceOf(data: bytes, pos: nat, whole: bytes, i: nat, j: nat)
    requires pos + |whole| <= |data| && data[pos..pos + |whole|] == whole && i <= j <= |whole|
    ensures data[pos + i..pos + j] == whole[i..j]
    ensures i < |whole| ==> data[pos + i] == whole[i]
  {
    forall k | 0 <= k < j - i ensures data[pos + i..pos + j][k] == whole[i..j][k] {
      assert data[pos..pos + |whole|][i + k] == data[pos + i + k];
    }
    if i < |whole| {
      assert data[pos + i] == data[pos..pos + |whole|][i];
    }
  }

  /** A spelling met in the input is read as the element it spells. */
  lemma ReadElementBack(data: bytes, pos: nat, produced: nat, size: nat, p: Piece)
    requires Spellable(p) && pos + |Spell(p)| <= |data| && data[pos..pos + |Spell(p)|] == Spell(p)
    requires produced + Length(p.element) <= size
    requires p.element.Copy? ==> 0 < p.element.offset <= produced
    ensures ReadElement(data, pos, produced, size) == Ok((p.element, pos + |Spell(p)|))
  {
    if p.element.Literal? {
      ReadLiteralBack(data, pos, produced, size, p);
    } else if p.form == 1 {
      ReadNearCopyBack(data, pos, produced, size, p);
    } else {
      ReadFarCopyBack(data, pos, produced, size, p);
    }
  }

  lemma ReadLiteralBack(data: bytes, pos: nat, produced: nat, size: nat, p: Piece)
    requires Spellable(p) && pos + |Spell(p)| <= |data| && data[pos..pos + |Spell(p)|] == Spell(p)
    requires p.element.Literal? && produced + Length(p.element) <= size
    ensures ReadElement(data, pos, produced, size) == Ok((p.element, pos + |Spell(p)|))
  {
    hide Spell, ReadElement, Pow256;
    var spelled, form := Spell(p), p.form;
    LiteralSpelling(p);
    SliceOf(data, pos, spelled, 0, 1);
    SliceOf(data, pos, spelled, 1, 1 + form);
    SliceOf(data, pos, spelled, 1 + form, |spelled|);
    ReadLiteral(data, pos, produced, size, form, p.element.data);
  }

  lemma LiteralSpelling(p: Piece)
    requires Spellable(p) && p.element.Literal?
    ensures var spelled, n := Spell(p), |p.element.data|;
      && |spelled| == 1 + p.form + n && spelled[1 + p.form..] == p.element.data
      && spelled[0] == (if p.form == 0 then 4 * (n - 1) else 4 * (59 + p.form))
      && (if p.form == 0 then 0 < n <= 60 else FromLittle(spelled[1..1 + p.form]) == n - 1)
  {
    hide Pow256, Little;
    if p.form != 0 {
      LittleValue(|p.element.data| - 1, p.form);
      assert Spell(p)[1..1 + p.form] == Little(|p.element.data| - 1, p.form);
    }
  }

  /** The literal branch of the reader, with its two slices given. */
  lemma ReadLiteral(data: bytes, pos: nat, produced: nat, size: nat, wide: nat, literal: bytes)
    requires pos + 1 + wide + |literal| <= |data| && wide <= 4 && produced + |literal| <= size
    requires data[pos] == if wide == 0 then 4 * (|literal| - 1) else 4 * (59 + wide)
    requires if wide == 0 then 0 < |literal| <= 60 else FromLittle(data[pos + 1..pos + 1 + wide]) + 1 == |literal|
    requires data[pos + 1 + wide..pos + 1 + wide + |literal|] == literal
    ensures ReadElement(data, pos, produced, size) == Ok((Literal(literal), pos + 1 + wide + |literal|))
  {
    var tag := data[pos];
    assert tag % 4 == 0 && tag / 4 == if wide == 0 then |literal| - 1 else 59 + wide;
  }

  lemma NearTag(length: int, high: int)
    requires 0 <= length < 8 && 0 <= high < 8
    ensures var tag := 1 + 4 * length + 32 * high;
      tag % 4 == 1 && tag / 4 % 8 == length && tag / 32 == high
  {
  }

  lemma ReadNearCopyBack(data: bytes, pos: nat, produced: nat, size: nat, p: Piece)
    requires Spellable(p) && pos + |Spell(p)| <= |data| && data[pos..pos + |Spell(p)|] == Spell(p)
    requires p.element.Copy? && p.form == 1
    requires produced + p.element.length <= size && 0 < p.element.offset <= produced
    ensures ReadElement(data, pos, produced, size) == Ok((p.element, pos + |Spell(p)|))
  {
    SliceOf(data, pos, Spell(p), 0, 1);
    SliceOf(data, pos, Spell(p), 1, 2);
    NearTag(p.element.length - 4, p.element.offset / 256);
  }

  lemma ReadFarCopyBack(data: bytes, pos: nat, produced: nat, size: nat, p: Piece)
    requires Spellable(p) && pos + |Spell(p)| <= |data| && data[pos..pos + |Spell(p)|] == Spell(p)
    requires p.element.Copy? && p.form != 1
    requires produced + p.element.length <= size && 0 < p.element.offset <= produced
    ensures ReadElement(data, pos, produced, size) == Ok((p.element, pos + |Spell(p)|))
  {
    var wide := if p.form == 2 then 2 else 4;
    SliceOf(data, pos, Spell(p), 0, 1);
    SliceOf(data, pos, Spell(p), 1, 1 + wide);
    LittleValue(p.element.offset, wide);
    assert Spell(p)[1..1 + wide] == Little(p.element.offset, wide);
  }

  /** The form a spelling was written in. */
  function FormOf(tag: byte): nat {
    if tag % 4 == 0 then (if tag / 4 < 60 then 0 else tag / 4 - 59) else tag % 4
  }

  lemma {:induction false} LittleOfValue(b: bytes)
    ensures Little(FromLittle(b), |b|) == b && FromLittle(b) < Pow256(|b|)
  {
    if b != [] {
      LittleOfValue(b[1..]);
      assert FromLittle(b) % 256 == b[0] && FromLittle(b) / 256 == FromLittle(b[1..]);
      assert b == [b[0]] + b[1..];
    }
  }

  /** Whatever is read was spelled that way. */
  lemma ReadElementSpelled(data: bytes, pos: nat, produced: nat, size: nat)
    requires pos < |data| && produced <= size && ReadElement(data, pos, produced, size).Ok?
    ensures var (element, next) := ReadElement(data, pos, produced, size).value;
      var p := Piece(element, FormOf(data[pos]));
      Spellable(p) && data[pos..next] == Spell(p)
  {
    if data[pos] % 4 == 0 {
      ReadLiteralSpelled(data, pos, produced, size);
    } else if data[pos] % 4 == 1 {
      ReadNearCopySpelled(data, pos, produced, size);
    } else {
      ReadFarCopySpelled(data, pos, produced, size);
    }
  }

  lemma ReadLiteralParts(data: bytes, pos: nat, produced: nat, size: nat)
    requires pos < |data| && produced <= size && ReadElement(data, pos, produced, size).Ok? && data[pos] % 4 == 0
    ensures var (element, next) := ReadElement(data, pos, produced, size).value;
      var wide := FormOf(data[pos]);
      && element.Literal? && wide <= 4 && next == pos + 1 + wide + |element.data| <= |data|
      && element.data == data[pos + 1 + wide..next]
      && data[pos] == (if wide == 0 then 4 * (|element.data| - 1) else 4 * (59 + wide))
      && (if wide == 0 then 0 < |element.data| <= 60
          else |element.data| - 1 == FromLittle(data[pos + 1..pos + 1 + wide]))
  {
    var tag := data[pos];
    assert tag == 4 * (tag / 4);
  }

  lemma ReadLiteralSpelled(data: bytes, pos: nat, produced: nat, size: nat)
    requires pos < |data| && produced <= size && ReadElement(data, pos, produced, size).Ok? && data[pos] % 4 == 0
    ensures var (element, next) := ReadElement(data, pos, produced, size).value;
      var p := Piece(element, FormOf(data[pos]));
      Spellable(p) && data[pos..next] == Spell(p)
  {
    hide ReadElement, Spell, Spellable, FormOf, FromLittle;
    ReadLiteralParts(data, pos, produced, size);
    var (element, next) := ReadElement(data, pos, produced, size).value;
    var wide := FormOf(data[pos]);
    var count := data[pos + 1..pos + 1 + wide];
    LiteralIsSpelled(data[pos], count, element.data);
    ThreeSlices(data, pos, pos + 1 + wide, next);
  }

  lemma ThreeSlices(data: bytes, i: nat, j: nat, k: nat)
    requires i < j <= k <= |data|
    ensures data[i..k] == [data[i]] + data[i + 1..j] + data[j..k]
  {
  }

  lemma LiteralIsSpelled(tag: byte, count: bytes, literal: bytes)
    requires |count| <= 4 && tag == if |count| == 0 then 4 * (|literal| - 1) else 4 * (59 + |count|)
    requires if |count| == 0 then 0 < |literal| <= 60 else |literal| - 1 == FromLittle(count)
    ensures var p := Piece(Literal(literal), |count|);
      Spellable(p) && [tag] + count + literal == Spell(p)
  {
    LittleOfValue(count);
    if count == [] {
      assert [tag] + count == [tag];
    }
  }

  lemma NearTagSplit(tag: byte)
    requires tag % 4 == 1
    ensures tag == 1 + 4 * (tag / 4 % 8) + 32 * (tag / 32) && tag / 32 < 8
  {
  }

  lemma ReadNearCopySpelled(data: bytes, pos: nat, produced: nat, size: nat)
    requires pos < |data| && produced <= size && ReadElement(data, pos, produced, size).Ok? && data[pos] % 4 == 1
    ensures var (element, next) := ReadElement(data, pos, produced, size).value;
      var p := Piece(element, FormOf(data[pos]));
      Spellable(p) && data[pos..next] == Spell(p)
  {
    NearTagSplit(data[pos]);
    assert data[pos..pos + 2] == [data[pos], data[pos + 1]];
    var high: int, low: int := data[pos] / 32, data[pos + 1];
    assert (high * 256 + low) / 256 == high && (high * 256 + low) % 256 == low;
  }

  lemma ReadFarCopyParts(data: bytes, pos: nat, produced: nat, size: nat)
    requires pos < |data| && produced <= size && ReadElement(data, pos, produced, size).Ok? && data[pos] % 4 >= 2
    ensures var (element, next) := ReadElement(data, pos, produced, size).value;
      var wide := if data[pos] % 4 == 2 then 2 else 4;
      && next == pos + 1 + wide <= |data| && element.Copy? && element.length == 1 + data[pos] / 4
      && element.offset == FromLittle(data[pos + 1..next])
  {
    hide FromLittle;
  }

  lemma ReadFarCopySpelled(data: bytes, pos: nat, produced: nat, size: nat)
    requires pos < |data| && produced <= size && ReadElement(data, pos, produced, size).Ok? && data[pos] % 4 >= 2
    ensures var (element, next) := ReadElement(data, pos, produced, size).value;
      var p := Piece(element, FormOf(data[pos]));
      Spellable(p) && data[pos..next] == Spell(p)
  {
    hide ReadElement, FromLittle, Little, Pow256;
    ReadFarCopyParts(data, pos, produced, size);
    var (element, next) := ReadElement(data, pos, produced, size).value;
    LittleOfValue(data[pos + 1..next]);
    assert data[pos..next] == [data[pos]] + data[pos + 1..next];
    assert data[pos] == data[pos] % 4 + 4 * (data[pos] / 4);
  }

  lemma {:induction false} RunSpelled(data: bytes, pos: nat, out: bytes, size: nat) returns (pieces: seq<Piece>)
    requires pos <= |data| && |out| <= size && Run(data, pos, out, size).Ok?
    ensures AllSpellable(pieces) && data[pos..] == SpellAll(pieces)
    ensures Expand(out, ElementsOf(pieces)) == Some(Run(data, pos, out, size).value)
    ensures |Run(data, pos, out, size).value| == size
    decreases |data| - pos
  {
    if pos == |data| {
      pieces := [];
    } else {
      ReadElementSpelled(data, pos, |out|, size);
      var (element, next) := ReadElement(data, pos, |out|, size).value;
      var rest := RunSpelled(data, next, Apply(out, element), size);
      pieces := [Piece(element, FormOf(data[pos]))] + rest;
      assert pieces[1..] == rest && ElementsOf(pieces)[1..] == ElementsOf(rest);
      assert data[pos..] == data[pos..next] + data[next..];
    }
  }

  lemma {:induction false} ExpandGrows(out: bytes, elements: seq<Element>)
    requires elements != [] && Expand(out, elements).Some?
    ensures |out| + Length(elements[0]) <= |Expand(out, elements).value|
  {
  }

  lemma SpelledHead(data: bytes, pos: nat, pieces: seq<Piece>)
    requires pos <= |data| && pieces != [] && AllSpellable(pieces) && data[pos..] == SpellAll(pieces)
    ensures var next := pos + |Spell(pieces[0])|;
      next <= |data| && data[pos..next] == Spell(pieces[0]) && data[next..] == SpellAll(pieces[1..])
  {
    var spelled := Spell(pieces[0]);
    assert data[pos..pos + |spelled|] == data[pos..][..|spelled|];
    assert data[pos + |spelled|..] == data[pos..][|spelled|..];
  }

  lemma RunStep(data: bytes, pos: nat, out: bytes, size: nat, element: Element, next: nat)
    requires pos < |data| && |out| <= size && ReadElement(data, pos, |out|, size) == Ok((element, next))
    ensures Run(data, pos, out, size) == Run(data, next, Apply(out, element), size)
  {
    hide ReadElement, Apply;
  }

  lemma ExpandStep(out: bytes, pieces: seq<Piece>)
    requires pieces != [] && Expand(out, ElementsOf(pieces)).Some?
    ensures Applicable(out, pieces[0].element)
    ensures Expand(out, ElementsOf(pieces)) == Expand(Apply(out, pieces[0].element), ElementsOf(pieces[1..]))
  {
    hide Apply;
    assert ElementsOf(pieces)[1..] == ElementsOf(pieces[1..]);
  }

  lemma {:induction false} RunBack(data: bytes, pos: nat, out: bytes, pieces: seq<Piece>, size: nat)
    requires pos <= |data| && AllSpellable(pieces) && data[pos..] == SpellAll(pieces) && |out| <= size
    requires Expand(out, ElementsOf(pieces)).Some? && |Expand(out, ElementsOf(pieces)).value| == size
    ensures Run(data, pos, out, size) == Ok(Expand(out, ElementsOf(pieces)).value)
    decreases |pieces|
  {
    if pieces == [] {
      assert pos == |data|;
    } else {
      var element, next := pieces[0].element, pos + |Spell(pieces[0])|;
      SpelledHead(data, pos, pieces);
      ExpandGrows(out, ElementsOf(pieces));
      ExpandStep(out, pieces);
      hide Run, Expand, Spell, SpellAll, Spellable, ReadElement, Apply, ElementsOf;
      ReadElementBack(data, pos, |out|, size, pieces[0]);
      RunStep(data, pos, out, size, element, next);
      RunBack(data, next, Apply(out, element), pieces[1..], size);
    }
  }

  lemma HeaderComesFirst(header: bytes, rest: bytes)
    requires IsHeader(header) && |header| <= 5
    ensures ReadSize(header + rest, 0) == Ok((HeaderValue(header), |header|)) && (header + rest)[|header|..] == rest
  {
    assert (header + rest)[0..0 + |header|] == header;
    ReadSizeBack(header, header + rest, 0);
  }

  /**
   Every stream of the format is decoded to the expansion of its elements: any header of
   up to five bytes with the right value, any spelling of each element.
   */
  lemma {:induction false} FormatIsDecoded(header: bytes, pieces: seq<Piece>)
    requires IsHeader(header) && |header| <= 5 && AllSpellable(pieces)
    requires |header + SpellAll(pieces)| <= LIMIT
    requires Expand([], ElementsOf(pieces)).Some?
    requires HeaderValue(header) == |Expand([], ElementsOf(pieces)).value| <= LIMIT
    ensures Decode(header + SpellAll(pieces)) == Ok(Expand([], ElementsOf(pieces)).value)
  {
    var data := header + SpellAll(pieces);
    HeaderComesFirst(header, SpellAll(pieces));
    RunBack(data, |header|, [], pieces, HeaderValue(header));
  }

  /** And nothing else is: whatever is decoded is such a stream, and the output is its expansion. */
  lemma {:induction false} DecodedIsFormat(data: bytes) returns (header: bytes, pieces: seq<Piece>)
    requires Decode(data).Ok?
    ensures IsHeader(header) && |header| <= 5 && AllSpellable(pieces) && data == header + SpellAll(pieces)
    ensures Expand([], ElementsOf(pieces)) == Some(Decode(data).value)
    ensures HeaderValue(header) == |Decode(data).value| <= LIMIT && |data| <= LIMIT
  {
    hide *;
    DecodedParts(data);
    var (size, pos) := ReadSize(data, 0).value;
    ReadSizeIsHeader(data, 0);
    header := data[0..pos];
    pieces := RunSpelled(data, pos, [], size);
    assert data == data[0..pos] + data[pos..];
  }

  lemma DecodedParts(data: bytes)
    requires Decode(data).Ok?
    ensures |data| <= LIMIT && ReadSize(data, 0).Ok?
    ensures var (size, pos) := ReadSize(data, 0).value;
      pos <= |data| && size <= LIMIT && Run(data, pos, [], size) == Decode(data)
  {
    hide ReadSize, Run;
  }

  /** An overlapping copy repeats with its offset as the period, across the seam with the old output too. */
  lemma CopyIsPeriodic(out: bytes, offset: nat, length: nat, i: nat)
    requires 0 < offset <= |out| && |out| <= i < |out| + length
    ensures Apply(out, Copy(offset, length))[i] == Apply(out, Copy(offset, length))[i - offset]
  {
    PhaseShift(i - |out|, offset);
    hide Phase;
  }

  /** The masks and shifts of the tag byte, as the divisions and remainders used above. */
  lemma TagFields(tag: bv16, low: bv16)
    requires tag < 256 && low < 256
    ensures tag & 3 == tag % 4 && tag >> 2 == tag / 4 && (tag >> 2) & 7 == tag / 4 % 8
    ensures ((tag & 224) << 3) | low == tag / 32 * 256 + low
  {
  }
}
