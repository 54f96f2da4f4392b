/**
 The calldata of the paid-action probe: the reader's strict decoder and the writer's
 encoder. The five function selectors and UTF-8 decoding are parameters.
 */
module PaidAbi {
  import opened Bytes
  import opened Wrappers

  const MAX_TEXT: nat := 1680
  const MAX_SCALARS: nat := 420
  const MAX_SIGNATURE: nat := 4096
  const WORD_BOUND: nat := 0x1_00000000_00000000_00000000_00000000_00000000_00000000_00000000_00000000

  datatype Kind = Deposit | Withdraw | Stake | Unstake

  datatype ProbeCall =
    | AmountCall(kind: Kind, accountId: nat, epoch: nat, amount: nat)
    | PostCall(accountId: nat, epoch: nat, nonce: nat, validAfter: nat, deadline: nat,
               distributionHash: bytes, text: bytes)

  /** scalars gives the number of Unicode scalars of well-formed UTF-8, and nothing for anything else. */
  datatype Format = Format(deposit: bytes, withdraw: bytes, stake: bytes, unstake: bytes, post: bytes,
                           scalars: bytes -> Option<nat>)

  /** Selectors are four bytes each, and no two are the same. */
  predicate Distinct(f: Format) {
    && |f.deposit| == |f.withdraw| == |f.stake| == |f.unstake| == |f.post| == 4
    && f.deposit !in {f.withdraw, f.stake, f.unstake, f.post} && f.withdraw !in {f.stake, f.unstake, f.post}
    && f.stake !in {f.unstake, f.post} && f.unstake != f.post
  }

  function KindOf(f: Format, selector: bytes): Option<Kind> {
    if selector == f.deposit then Some(Deposit)
    else if selector == f.withdraw then Some(Withdraw)
    else if selector == f.stake then Some(Stake)
    else if selector == f.unstake then Some(Unstake)
    else None
  }

  function SelectorOf(f: Format, kind: Kind): bytes {
    match kind
    case Deposit => f.deposit
    case Withdraw => f.withdraw
    case Stake => f.stake
    case Unstake => f.unstake
  }

  // The reader.

  function ReadWord(data: bytes, index: nat): (r: nat)
    requires 32 * (index + 1) <= |data|
    ensures r < WORD_BOUND
  {
    WordBound();
    FromBigBound(data[32 * index..32 * index + 32]);
    FromBig(data[32 * index..32 * index + 32])
  }

  lemma WordBound()
    ensures Pow256(32) == WORD_BOUND
  {
    assert Pow256(8) == 0x1_0000_0000_0000_0000;
    assert Pow256(16) == Pow256(8) * Pow256(8) by {
      assert Pow256(12) == 0x1_0000_0000_0000_0000_0000_0000;
    }
    assert Pow256(20) == 0x1_00000000_00000000_00000000_00000000_00000000;
    assert Pow256(24) == 0x1_00000000_00000000_00000000_00000000_00000000_00000000;
    assert Pow256(28) == 0x1_00000000_00000000_00000000_00000000_00000000_00000000_00000000;
  }

  /** How many zero bytes follow a string to fill its last word. */
  function Padding(n: nat): (r: nat)
    ensures r < 32 && (n + r) % 32 == 0
  {
    if n % 32 == 0 then 0 else 32 - n % 32
  }

  lemma WholeWords(n: nat)
    ensures (32 + n + Padding(n)) % 32 == 0
    ensures n % 32 == 0 ==> (224 + n) % 32 == 0 && (64 + n) % 32 == 0
  {
  }

  /** Reads one length-prefixed, zero-padded string; gives it and where it ends. */
  function ReadDynamic(data: bytes, offset: nat, maximum: nat): (r: Option<(bytes, nat)>)
    ensures r.Some? ==> offset + 32 <= r.value.1 <= |data| && |r.value.0| <= maximum
  {
    if offset % 32 != 0 || offset + 32 > |data| then None else
    var length := FromBig(data[offset..offset + 32]);
    if length > maximum then None else
    var end := offset + 32 + length + Padding(length);
    if end > |data| then None else
    if data[offset + 32 + length..end] != Zeros(Padding(length)) then None
    else Some((data[offset + 32..offset + 32 + length], end))
  }

  predicate ReadableText(f: Format, text: bytes) {
    0 < |text| <= MAX_TEXT && f.scalars(text).Some? && f.scalars(text).value <= MAX_SCALARS
  }

  function ReadPost(f: Format, args: bytes): (r: Option<(ProbeCall, bytes)>) {
    if |args| < 64 || ReadWord(args, 0) != 64 then None else
    var request := args[64..];
    if |request| < 224 || ReadWord(request, 6) != 224 then None else
    match ReadDynamic(request, 224, MAX_TEXT)
    case None => None
    case Some((text, end)) =>
      if ReadWord(args, 1) != 64 + end then None else
      match ReadDynamic(args, 64 + end, MAX_SIGNATURE)
      case None => None
      case Some((signature, final)) =>
        if final != |args| || !ReadableText(f, text) then None else
        Some((PostCall(ReadWord(request, 0), ReadWord(request, 1), ReadWord(request, 2), ReadWord(request, 3),
                       ReadWord(request, 4), request[160..192], text), signature))
  }

  function ReadCall(f: Format, data: bytes): (r: Option<ProbeCall>) {
    if |data| < 4 then None else
    var selector, args := data[..4], data[4..];
    match KindOf(f, selector)
    case Some(kind) =>
      if |args| != 96 then None
      else Some(AmountCall(kind, ReadWord(args, 0), ReadWord(args, 1), ReadWord(args, 2)))
    case None =>
      if selector != f.post then None else
      match ReadPost(f, args)
      case None => None
      case Some((call, _)) => Some(call)
  }

  // The writer.

  function Word(n: nat): (r: bytes)
    ensures |r| == 32
  {
    Big(n, 32)
  }

  function Blob(b: bytes): (r: bytes)
    ensures |r| == 32 + |b| + Padding(|b|) && |r| % 32 == 0
  {
    WholeWords(|b|);
    Word(|b|) + b + Zeros(Padding(|b|))
  }

  function Fixed(c: ProbeCall): (r: bytes)
    requires c.PostCall? && |c.distributionHash| == 32
    ensures |r| == 224
  {
    Word(c.accountId) + Word(c.epoch) + Word(c.nonce) + Word(c.validAfter) + Word(c.deadline)
    + c.distributionHash + Word(224)
  }

  function Request(c: ProbeCall): (r: bytes)
    requires c.PostCall? && |c.distributionHash| == 32
    ensures |r| == 224 + |Blob(c.text)| && |r| % 32 == 0
  {
    WholeWords(|Blob(c.text)|);
    Fixed(c) + Blob(c.text)
  }

  function Arguments(c: ProbeCall, signature: bytes): (r: bytes)
    requires c.PostCall? && |c.distributionHash| == 32
  {
    Word(64) + Word(64 + |Request(c)|) + Request(c) + Blob(signature)
  }

  function WritePost(f: Format, c: ProbeCall, signature: bytes): (r: bytes)
    requires c.PostCall? && |c.distributionHash| == 32
  {
    f.post + Arguments(c, signature)
  }

  function WriteAmount(f: Format, c: ProbeCall): (r: bytes)
    requires c.AmountCall?
  {
    SelectorOf(f, c.kind) + (Word(c.accountId) + Word(c.epoch) + Word(c.amount))
  }

  predicate Writable(f: Format, c: ProbeCall) {
    match c
    case AmountCall(_, accountId, epoch, amount) => accountId < WORD_BOUND && epoch < WORD_BOUND && amount < WORD_BOUND
    case PostCall(accountId, epoch, nonce, validAfter, deadline, distributionHash, text) =>
      && accountId < WORD_BOUND && epoch < WORD_BOUND && nonce < WORD_BOUND
      && validAfter < WORD_BOUND && deadline < WORD_BOUND
      && |distributionHash| == 32 && ReadableText(f, text)
  }

  // Words and blobs, both ways.

  lemma SubSlice(data: bytes, a: nat, b: nat, i: nat, j: nat)
    requires a <= b <= |data| && i <= j <= b - a
    ensures data[a..b][i..j] == data[a + i..a + j]
  {
    forall k | 0 <= k < j - i ensures data[a..b][i..j][k] == data[a + i..a + j][k] {
      assert data[a..b][i + k] == data[a + i + k];
    }
  }

  lemma WordBack(data: bytes, index: nat, n: nat)
    requires 32 * (index + 1) <= |data| && n < WORD_BOUND && data[32 * index..32 * index + 32] == Word(n)
    ensures ReadWord(data, index) == n
  {
    WordBound();
    BigValue(n, 32);
  }

  lemma WordSpelled(data: bytes, index: nat)
    requires 32 * (index + 1) <= |data|
    ensures data[32 * index..32 * index + 32] == Word(ReadWord(data, index))
  {
    BigOfValue(data[32 * index..32 * index + 32]);
  }

  lemma BlobSlices(data: bytes, offset: nat, b: bytes)
    requires offset + |Blob(b)| <= |data| && data[offset..offset + |Blob(b)|] == Blob(b)
    ensures data[offset..offset + 32] == Word(|b|) && data[offset + 32..offset + 32 + |b|] == b
    ensures data[offset + 32 + |b|..offset + |Blob(b)|] == Zeros(Padding(|b|))
  {
    var end := offset + |Blob(b)|;
    SubSlice(data, offset, end, 0, 32);
    SubSlice(data, offset, end, 32, 32 + |b|);
    SubSlice(data, offset, end, 32 + |b|, end - offset);
    ThreeParts(Word(|b|), b, Zeros(Padding(|b|)));
  }

  lemma ThreeParts(x: bytes, y: bytes, z: bytes)
    ensures var all := x + y + z;
      all[0..|x|] == x && all[|x|..|x| + |y|] == y && all[|x| + |y|..|all|] == z
  {
  }

  lemma BlobBack(data: bytes, offset: nat, b: bytes, maximum: nat)
    requires offset % 32 == 0 && |b| <= maximum < WORD_BOUND
    requires offset + |Blob(b)| <= |data| && data[offset..offset + |Blob(b)|] == Blob(b)
    ensures ReadDynamic(data, offset, maximum) == Some((b, offset + |Blob(b)|))
  {
    WordBound();
    BigValue(|b|, 32);
    BlobSlices(data, offset, b);
  }

  lemma BlobSpelled(data: bytes, offset: nat, maximum: nat)
    requires ReadDynamic(data, offset, maximum).Some?
    ensures var (b, end) := ReadDynamic(data, offset, maximum).value;
      end == offset + |Blob(b)| && data[offset..end] == Blob(b)
  {
    var (b, end) := ReadDynamic(data, offset, maximum).value;
    BigOfValue(data[offset..offset + 32]);
    assert data[offset..end] == data[offset..offset + 32] + b + data[offset + 32 + |b|..end];
  }

  // Amount calls.

  lemma ThreeWords(args: bytes, a: nat, b: nat, c: nat)
    requires a < WORD_BOUND && b < WORD_BOUND && c < WORD_BOUND && args == Word(a) + Word(b) + Word(c)
    ensures ReadWord(args, 0) == a && ReadWord(args, 1) == b && ReadWord(args, 2) == c
  {
    assert args[0..32] == Word(a) && args[32..64] == Word(b) && args[64..96] == Word(c);
    WordBack(args, 0, a);
    WordBack(args, 1, b);
    WordBack(args, 2, c);
  }

  lemma AmountBack(f: Format, c: ProbeCall)
    requires Distinct(f) && c.AmountCall? && c.accountId < WORD_BOUND && c.epoch < WORD_BOUND && c.amount < WORD_BOUND
    ensures ReadCall(f, WriteAmount(f, c)) == Some(c)
  {
    var args := Word(c.accountId) + Word(c.epoch) + Word(c.amount);
    assert WriteAmount(f, c)[..4] == SelectorOf(f, c.kind) && WriteAmount(f, c)[4..] == args;
    ThreeWords(args, c.accountId, c.epoch, c.amount);
  }

  /** An accepted deposit, withdrawal or stake change is the writer's encoding of what was read, and of nothing else. */
  lemma AmountSpelled(f: Format, data: bytes)
    requires Distinct(f) && ReadCall(f, data).Some? && ReadCall(f, data).value.AmountCall?
    ensures var c := ReadCall(f, data).value;
      && c.accountId < WORD_BOUND && c.epoch < WORD_BOUND && c.amount < WORD_BOUND && data == WriteAmount(f, c)
      && data == (match c.kind case Deposit => f.deposit case Withdraw => f.withdraw case Stake => f.stake case Unstake => f.unstake)
                 + Word(c.accountId) + Word(c.epoch) + Word(c.amount)
  {
    var args := data[4..];
    WordSpelled(args, 0);
    WordSpelled(args, 1);
    WordSpelled(args, 2);
    assert args == args[0..32] + args[32..64] + args[64..96];
    assert data == data[..4] + args;
    var c := ReadCall(f, data).value;
    assert data[..4] + Word(c.accountId) + Word(c.epoch) + Word(c.amount) == data[..4] + args;
  }

  // Post calls.

  lemma FixedBack(c: ProbeCall, request: bytes)
    requires c.PostCall? && |c.distributionHash| == 32 && 224 <= |request| && request[..224] == Fixed(c)
    requires c.accountId < WORD_BOUND && c.epoch < WORD_BOUND && c.nonce < WORD_BOUND
    requires c.validAfter < WORD_BOUND && c.deadline < WORD_BOUND
    ensures ReadWord(request, 0) == c.accountId && ReadWord(request, 1) == c.epoch && ReadWord(request, 2) == c.nonce
    ensures ReadWord(request, 3) == c.validAfter && ReadWord(request, 4) == c.deadline
    ensures request[160..192] == c.distributionHash && ReadWord(request, 6) == 224
  {
    FixedSlices(c);
    SubSlice(request, 0, 224, 0, 32);
    SubSlice(request, 0, 224, 32, 64);
    SubSlice(request, 0, 224, 64, 96);
    SubSlice(request, 0, 224, 96, 128);
    SubSlice(request, 0, 224, 128, 160);
    SubSlice(request, 0, 224, 160, 192);
    SubSlice(request, 0, 224, 192, 224);
    WordBack(request, 0, c.accountId);
    WordBack(request, 1, c.epoch);
    WordBack(request, 2, c.nonce);
    WordBack(request, 3, c.validAfter);
    WordBack(request, 4, c.deadline);
    WordBack(request, 6, 224);
  }

  lemma FixedSlices(c: ProbeCall)
    requires c.PostCall? && |c.distributionHash| == 32
    ensures var x := Fixed(c);
      && x[0..32] == Word(c.accountId) && x[32..64] == Word(c.epoch) && x[64..96] == Word(c.nonce)
      && x[96..128] == Word(c.validAfter) && x[128..160] == Word(c.deadline)
      && x[160..192] == c.distributionHash && x[192..224] == Word(224)
  {
  }

  lemma SevenSlices(request: bytes)
    requires 224 <= |request|
    ensures request[..224] == request[0..32] + request[32..64] + request[64..96] + request[96..128]
                            + request[128..160] + request[160..192] + request[192..224]
  {
  }

  lemma ArgsSlices(a: bytes, b: bytes, request: bytes, blob: bytes)
    requires |a| == 32 && |b| == 32
    ensures var args := a + b + request + blob;
      && args[0..32] == a && args[32..64] == b && args[64..] == request + blob
      && args[64 + |request|..64 + |request| + |blob|] == blob
  {
  }

  lemma RequestBack(c: ProbeCall, rest: bytes)
    requires c.PostCall? && |c.distributionHash| == 32 && |c.text| <= MAX_TEXT
    ensures var request := Request(c) + rest;
      request[..224] == Fixed(c) && ReadDynamic(request, 224, MAX_TEXT) == Some((c.text, |Request(c)|))
  {
    var request := Request(c) + rest;
    assert request == Fixed(c) + (Blob(c.text) + rest);
    assert request[224..224 + |Blob(c.text)|] == Blob(c.text);
    BlobBack(request, 224, c.text, MAX_TEXT);
  }

  /** The reader's verdict, from what each of its reads gives. */
  lemma ReadPostFrom(f: Format, args: bytes, c: ProbeCall, end: nat, signature: bytes)
    requires c.PostCall? && ReadableText(f, c.text) && 64 + 224 <= |args|
    requires ReadWord(args, 0) == 64 && ReadWord(args[64..], 6) == 224 && ReadWord(args, 1) == 64 + end
    requires ReadDynamic(args[64..], 224, MAX_TEXT) == Some((c.text, end))
    requires ReadDynamic(args, 64 + end, MAX_SIGNATURE) == Some((signature, |args|))
    requires ReadWord(args[64..], 0) == c.accountId && ReadWord(args[64..], 1) == c.epoch
    requires ReadWord(args[64..], 2) == c.nonce && ReadWord(args[64..], 3) == c.validAfter
    requires ReadWord(args[64..], 4) == c.deadline && args[64..][160..192] == c.distributionHash
    ensures ReadPost(f, args) == Some((c, signature))
  {
  }

  /** The two head words and the two tails of the arguments. */
  lemma ArgumentsLayout(c: ProbeCall, signature: bytes)
    requires c.PostCall? && |c.distributionHash| == 32
    ensures var args, n := Arguments(c, signature), |Request(c)|;
      && |args| == 64 + n + |Blob(signature)|
      && args[0..32] == Word(64) && args[32..64] == Word(64 + n)
      && args[64..] == Request(c) + Blob(signature)
      && args[64 + n..64 + n + |Blob(signature)|] == Blob(signature)
  {
    ArgsSlices(Word(64), Word(64 + |Request(c)|), Request(c), Blob(signature));
  }

  lemma ArgumentsHead(c: ProbeCall, signature: bytes)
    requires c.PostCall? && |c.distributionHash| == 32 && |c.text| <= MAX_TEXT
    ensures var args := Arguments(c, signature);
      && 64 + |Request(c)| <= |args| && args[64..] == Request(c) + Blob(signature)
      && ReadWord(args, 0) == 64 && ReadWord(args, 1) == 64 + |Request(c)|
  {
    ArgumentsLayout(c, signature);
    HeadWords(Arguments(c, signature), |Request(c)|);
  }

  lemma ArgumentsTail(c: ProbeCall, signature: bytes)
    requires c.PostCall? && |c.distributionHash| == 32 && |signature| <= MAX_SIGNATURE
    ensures var args := Arguments(c, signature);
      ReadDynamic(args, 64 + |Request(c)|, MAX_SIGNATURE) == Some((signature, |args|))
  {
    ArgumentsLayout(c, signature);
    WholeWords(|Request(c)|);
    TailBack(Arguments(c, signature), 64 + |Request(c)|, signature);
  }

  lemma TailBack(args: bytes, n: nat, signature: bytes)
    requires n % 32 == 0 && |signature| <= MAX_SIGNATURE && n + |Blob(signature)| == |args|
    requires args[n..|args|] == Blob(signature)
    ensures ReadDynamic(args, n, MAX_SIGNATURE) == Some((signature, |args|))
  {
    hide ReadDynamic, Blob;
    BlobBack(args, n, signature, MAX_SIGNATURE);
  }

  lemma PostArgsBack(f: Format, c: ProbeCall, signature: bytes)
    requires c.PostCall? && Writable(f, c) && |signature| <= MAX_SIGNATURE
    ensures ReadPost(f, Arguments(c, signature)) == Some((c, signature))
  {
    ArgumentsHead(c, signature);
    ArgumentsTail(c, signature);
    ArgumentsRead(f, c, Arguments(c, signature), signature);
  }

  lemma ArgumentsRead(f: Format, c: ProbeCall, args: bytes, signature: bytes)
    requires c.PostCall? && Writable(f, c) && 64 + |Request(c)| <= |args|
    requires args[64..] == Request(c) + Blob(signature)
    requires ReadWord(args, 0) == 64 && ReadWord(args, 1) == 64 + |Request(c)|
    requires ReadDynamic(args, 64 + |Request(c)|, MAX_SIGNATURE) == Some((signature, |args|))
    ensures ReadPost(f, args) == Some((c, signature))
  {
    RequestRead(f, c, args[64..], Blob(signature));
    ReadPostFrom(f, args, c, |Request(c)|, signature);
  }

  lemma RequestRead(f: Format, c: ProbeCall, request: bytes, rest: bytes)
    requires c.PostCall? && Writable(f, c) && request == Request(c) + rest
    ensures ReadDynamic(request, 224, MAX_TEXT) == Some((c.text, |Request(c)|)) && ReadWord(request, 6) == 224
    ensures ReadWord(request, 0) == c.accountId && ReadWord(request, 1) == c.epoch
    ensures ReadWord(request, 2) == c.nonce && ReadWord(request, 3) == c.validAfter
    ensures ReadWord(request, 4) == c.deadline && request[160..192] == c.distributionHash
  {
    RequestBack(c, rest);
    FixedBack(c, request);
  }

  lemma HeadWords(args: bytes, n: nat)
    requires 64 <= |args| && 64 + n < WORD_BOUND && args[0..32] == Word(64) && args[32..64] == Word(64 + n)
    ensures ReadWord(args, 0) == 64 && ReadWord(args, 1) == 64 + n
  {
    WordBack(args, 0, 64);
    WordBack(args, 1, 64 + n);
  }

  /** Writing then reading a post gives back every field, for all admissible texts and signatures. */
  lemma PostBack(f: Format, c: ProbeCall, signature: bytes)
    requires Distinct(f) && c.PostCall? && |c.distributionHash| == 32
    requires c.accountId < WORD_BOUND && c.epoch < WORD_BOUND && c.nonce < WORD_BOUND
    requires c.validAfter < WORD_BOUND && c.deadline < WORD_BOUND && |signature| <= 4096
    requires 0 < |c.text| <= 1680 && f.scalars(c.text).Some? && f.scalars(c.text).value <= 420
    ensures ReadCall(f, WritePost(f, c, signature)) == Some(c)
  {
    assert WritePost(f, c, signature)[..4] == f.post && WritePost(f, c, signature)[4..] == Arguments(c, signature);
    PostArgsBack(f, c, signature);
  }

  lemma RequestSpelled(f: Format, args: bytes)
    requires ReadPost(f, args).Some?
    ensures var (c, signature) := ReadPost(f, args).value;
      && c.PostCall? && Writable(f, c) && 224 + |Blob(c.text)| <= |args[64..]|
      && args[64..64 + |Request(c)|] == Request(c)
  {
    var (c, signature) := ReadPost(f, args).value;
    var request := args[64..];
    SevenSlices(request);
    WordSpelled(request, 0);
    WordSpelled(request, 1);
    WordSpelled(request, 2);
    WordSpelled(request, 3);
    WordSpelled(request, 4);
    WordSpelled(request, 6);
    BlobSpelled(request, 224, MAX_TEXT);
    var end := 224 + |Blob(c.text)|;
    assert request[..end] == request[..224] + request[224..end];
    assert args[64..64 + end] == request[..end];
  }

  lemma ArgsSpelled(f: Format, args: bytes)
    requires ReadPost(f, args).Some?
    ensures var (c, signature) := ReadPost(f, args).value;
      && c.PostCall? && Writable(f, c) && |signature| <= MAX_SIGNATURE
      && args == Arguments(c, signature)
  {
    RequestSpelled(f, args);
    var (c, signature) := ReadPost(f, args).value;
    var n := 64 + |Request(c)|;
    WordSpelled(args, 0);
    WordSpelled(args, 1);
    TextEnd(f, args);
    BlobSpelled(args, n, MAX_SIGNATURE);
    Assemble(args, c, signature, n);
  }

  lemma Assemble(args: bytes, c: ProbeCall, signature: bytes, n: nat)
    requires c.PostCall? && |c.distributionHash| == 32 && n == 64 + |Request(c)| <= |args|
    requires args[0..32] == Word(64) && args[32..64] == Word(n)
    requires args[64..n] == Request(c) && args[n..|args|] == Blob(signature)
    ensures args == Arguments(c, signature)
  {
    FourParts(args, n);
  }

  /** Where the signature starts is where the text ended. */
  lemma TextEnd(f: Format, args: bytes)
    requires ReadPost(f, args).Some?
    ensures var (c, signature) := ReadPost(f, args).value;
      && c.PostCall? && |c.distributionHash| == 32
      && ReadWord(args, 0) == 64 && ReadWord(args, 1) == 64 + |Request(c)|
      && ReadDynamic(args, 64 + |Request(c)|, MAX_SIGNATURE) == Some((signature, |args|))
  {
    BlobSpelled(args[64..], 224, MAX_TEXT);
  }

  lemma FourParts(args: bytes, n: nat)
    requires 64 <= n <= |args|
    ensures args == args[0..32] + args[32..64] + args[64..n] + args[n..|args|]
  {
  }

  lemma PostParts(f: Format, data: bytes)
    requires Distinct(f) && ReadCall(f, data).Some? && ReadCall(f, data).value.PostCall?
    ensures 4 <= |data| && data == f.post + data[4..]
    ensures ReadPost(f, data[4..]).Some? && ReadPost(f, data[4..]).value.0 == ReadCall(f, data).value
  {
    assert data == data[..4] + data[4..];
  }

  /**
   An accepted post is the writer's encoding of the fields read, with one signature of at
   most the allowed length: offsets, padding and length leave no freedom, and word by word
   the order is the one given here.
   */
  lemma PostSpelled(f: Format, data: bytes) returns (signature: bytes)
    requires Distinct(f) && ReadCall(f, data).Some? && ReadCall(f, data).value.PostCall?
    ensures var c := ReadCall(f, data).value;
      && Writable(f, c) && |signature| <= 4096 && data == WritePost(f, c, signature)
      && 0 < |c.text| <= 1680 && f.scalars(c.text).Some? && f.scalars(c.text).value <= 420 && |c.distributionHash| == 32
      && data == f.post + (Word(64) + Word(64 + 224 + |Blob(c.text)|)
                 + (Word(c.accountId) + Word(c.epoch) + Word(c.nonce) + Word(c.validAfter) + Word(c.deadline)
                    + c.distributionHash + Word(224) + Blob(c.text))
                 + Blob(signature))
  {
    PostParts(f, data);
    signature := ReadPost(f, data[4..]).value.1;
    ArgsSpelled(f, data[4..]);
    hide ReadCall, ReadPost, Word, Blob;
  }

  /** Two encodings are equal only if fields and signatures are. */
  lemma PostInjective(f: Format, c1: ProbeCall, s1: bytes, c2: ProbeCall, s2: bytes)
    requires c1.PostCall? && Writable(f, c1) && |s1| <= MAX_SIGNATURE
    requires c2.PostCall? && Writable(f, c2) && |s2| <= MAX_SIGNATURE
    requires WritePost(f, c1, s1) == WritePost(f, c2, s2)
    ensures c1 == c2 && s1 == s2
  {
    PostArgsBack(f, c1, s1);
    PostArgsBack(f, c2, s2);
    assert WritePost(f, c1, s1)[|f.post|..] == Arguments(c1, s1);
    assert WritePost(f, c2, s2)[|f.post|..] == Arguments(c2, s2);
  }
}
