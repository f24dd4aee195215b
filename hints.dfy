/** Query hints and their binary form: `SqlHint::serialize` writes the name,
    the option count, the options, the key/value count and the key/value
    pairs; `deserialize` reads them back in the same order and replays them
    through `setOption` and `setKvOption`. `SqlHints` writes a count and the
    hints, and reading appends that many hints to the list it already holds.

    A buffer is a sequence of tokens, one per `writeBinary` call; the byte
    layout of strings and integers is not part of this model. The hint's
    setters are declared in a header that is not part of this model, so they
    are parameters. */
module Hints {
  import opened Wrappers

  datatype Token = StrToken(str: string) | NumToken(num: nat)

  /** Reading past the end throws ATTEMPT_TO_READ_AFTER_EOF; a token of the
      other kind stands for bytes that do not hold what is being read. */
  datatype ReadError = AttemptToReadAfterEof | UnexpectedToken

  /** Options in the order they were set; key/value options in iteration order. */
  datatype SqlHint = SqlHint(name: string, options: seq<string>, kvOptions: seq<(string, string)>)

  type OptionSetter = (SqlHint, string) -> SqlHint
  type KvSetter = (SqlHint, string, string) -> SqlHint

  // ---------------------------------------------------------------------
  // Writing

  function StrTokens(ss: seq<string>): (ts: seq<Token>)
    ensures |ts| == |ss| && forall i | 0 <= i < |ss| :: ts[i] == StrToken(ss[i])
  {
    seq(|ss|, i requires 0 <= i < |ss| => StrToken(ss[i]))
  }

  /** Each pair as its key token then its value token. */
  function PairTokens(kv: seq<(string, string)>): seq<Token>
  {
    if kv == [] then [] else [StrToken(kv[0].0), StrToken(kv[0].1)] + PairTokens(kv[1..])
  }

  /** What `SqlHint::serialize` writes. */
  function EncodeHint(h: SqlHint): seq<Token>
  {
    [StrToken(h.name), NumToken(|h.options|)] + StrTokens(h.options)
      + [NumToken(|h.kvOptions|)] + PairTokens(h.kvOptions)
  }

  function EncodeHintList(hs: seq<SqlHint>): seq<Token>
  {
    if hs == [] then [] else EncodeHint(hs[0]) + EncodeHintList(hs[1..])
  }

  /** What `SqlHints::serialize` writes. */
  function EncodeHints(hs: seq<SqlHint>): seq<Token>
  {
    [NumToken(|hs|)] + EncodeHintList(hs)
  }

  lemma {:induction false} PairTokensSnoc(kv: seq<(string, string)>, i: nat)
    requires i < |kv|
    ensures PairTokens(kv[..i + 1]) == PairTokens(kv[..i]) + [StrToken(kv[i].0), StrToken(kv[i].1)]
    decreases i
  {
    if i > 0 {
      PairTokensSnoc(kv[1..], i - 1);
      assert kv[1..][..i] == kv[..i + 1][1..];
      assert kv[1..][..i - 1] == kv[..i][1..];
    }
  }

  lemma {:induction false} EncodeHintListSnoc(hs: seq<SqlHint>, i: nat)
    requires i < |hs|
    ensures EncodeHintList(hs[..i + 1]) == EncodeHintList(hs[..i]) + EncodeHint(hs[i])
    decreases i
  {
    if i > 0 {
      EncodeHintListSnoc(hs[1..], i - 1);
      assert hs[1..][..i] == hs[..i + 1][1..];
      assert hs[1..][..i - 1] == hs[..i][1..];
    } else {
      assert hs[..1] == [hs[0]] && hs[..1][1..] == [];
    }
  }

  // ---------------------------------------------------------------------
  // Reading: each read yields a value and the tokens after it

  function ReadStr(ts: seq<Token>): (r: Result<(string, seq<Token>), ReadError>)
    ensures r.Ok? ==> |ts| > 0 && r.value.1 == ts[1..]
    ensures r.Err? <==> ts == [] || !ts[0].StrToken?
    ensures ts == [] ==> r == Err(AttemptToReadAfterEof)
  {
    if ts == [] then Err(AttemptToReadAfterEof)
    else if ts[0].StrToken? then Ok((ts[0].str, ts[1..]))
    else Err(UnexpectedToken)
  }

  function ReadNum(ts: seq<Token>): (r: Result<(nat, seq<Token>), ReadError>)
    ensures r.Ok? ==> |ts| > 0 && r.value.1 == ts[1..]
    ensures r.Err? <==> ts == [] || !ts[0].NumToken?
    ensures ts == [] ==> r == Err(AttemptToReadAfterEof)
  {
    if ts == [] then Err(AttemptToReadAfterEof)
    else if ts[0].NumToken? then Ok((ts[0].num, ts[1..]))
    else Err(UnexpectedToken)
  }

  /** The option loop of `SqlHint::deserialize`: read `n` options, setting each. */
  function DecodeOptions(ts: seq<Token>, n: nat, hint: SqlHint, setOption: OptionSetter)
    : Result<(SqlHint, seq<Token>), ReadError>
    decreases n
  {
    if n == 0 then Ok((hint, ts))
    else match ReadStr(ts)
      case Err(e) => Err(e)
      case Ok((option, rest)) => DecodeOptions(rest, n - 1, setOption(hint, option), setOption)
  }

  /** The key/value loop: read `n` keys and values, setting each pair. */
  function DecodeKvs(ts: seq<Token>, n: nat, hint: SqlHint, setKv: KvSetter)
    : Result<(SqlHint, seq<Token>), ReadError>
    decreases n
  {
    if n == 0 then Ok((hint, ts))
    else match ReadStr(ts)
      case Err(e) => Err(e)
      case Ok((key, rest)) =>
        match ReadStr(rest)
        case Err(e) => Err(e)
        case Ok((value, rest')) => DecodeKvs(rest', n - 1, setKv(hint, key, value), setKv)
  }

  /** `SqlHint::deserialize`: the hint read from the front of `ts`, and what follows it. */
  function DecodeHint(ts: seq<Token>, setOption: OptionSetter, setKv: KvSetter)
    : Result<(SqlHint, seq<Token>), ReadError>
  {
    match ReadStr(ts)
    case Err(e) => Err(e)
    case Ok((name, r1)) =>
      match ReadNum(r1)
      case Err(e) => Err(e)
      case Ok((n, r2)) =>
        match DecodeOptions(r2, n, SqlHint(name, [], []), setOption)
        case Err(e) => Err(e)
        case Ok((h, r3)) =>
          match ReadNum(r3)
          case Err(e) => Err(e)
          case Ok((m, r4)) => DecodeKvs(r4, m, h, setKv)
  }

  /** The hint loop of `SqlHints::deserialize`: `n` hints appended to `hints`. */
  function DecodeHintList(ts: seq<Token>, n: nat, hints: seq<SqlHint>, setOption: OptionSetter, setKv: KvSetter)
    : Result<(seq<SqlHint>, seq<Token>), ReadError>
    decreases n
  {
    if n == 0 then Ok((hints, ts))
    else match DecodeHint(ts, setOption, setKv)
      case Err(e) => Err(e)
      case Ok((h, rest)) => DecodeHintList(rest, n - 1, hints + [h], setOption, setKv)
  }

  /** `SqlHints::deserialize`: the existing hints followed by those read. */
  function DecodeHints(ts: seq<Token>, hints: seq<SqlHint>, setOption: OptionSetter, setKv: KvSetter)
    : Result<(seq<SqlHint>, seq<Token>), ReadError>
  {
    match ReadNum(ts)
    case Err(e) => Err(e)
    case Ok((n, rest)) => DecodeHintList(rest, n, hints, setOption, setKv)
  }

  // ---------------------------------------------------------------------
  // Round trips

  /** The hint `deserialize` rebuilds from `h`'s encoding: a hint with `h`'s
      name, then `h`'s options and pairs passed to the setters in order. */
  function ReplayOptions(hint: SqlHint, options: seq<string>, setOption: OptionSetter): SqlHint
    decreases |options|
  {
    if options == [] then hint else ReplayOptions(setOption(hint, options[0]), options[1..], setOption)
  }

  function ReplayKvs(hint: SqlHint, kv: seq<(string, string)>, setKv: KvSetter): SqlHint
    decreases |kv|
  {
    if kv == [] then hint else ReplayKvs(setKv(hint, kv[0].0, kv[0].1), kv[1..], setKv)
  }

  function Rebuilt(h: SqlHint, setOption: OptionSetter, setKv: KvSetter): SqlHint
  {
    ReplayKvs(ReplayOptions(SqlHint(h.name, [], []), h.options, setOption), h.kvOptions, setKv)
  }

  function RebuiltAll(hs: seq<SqlHint>, setOption: OptionSetter, setKv: KvSetter): (r: seq<SqlHint>)
    ensures |r| == |hs| && forall i | 0 <= i < |hs| :: r[i] == Rebuilt(hs[i], setOption, setKv)
  {
    seq(|hs|, i requires 0 <= i < |hs| => Rebuilt(hs[i], setOption, setKv))
  }

  lemma {:induction false} DecodeOptionsEncoded(options: seq<string>, rest: seq<Token>, hint: SqlHint,
                                                setOption: OptionSetter)
    ensures DecodeOptions(StrTokens(options) + rest, |options|, hint, setOption)
         == Ok((ReplayOptions(hint, options, setOption), rest))
    decreases |options|
  {
    if options != [] {
      var ts := StrTokens(options) + rest;
      assert ts[0] == StrToken(options[0]);
      assert ts[1..] == StrTokens(options[1..]) + rest;
      DecodeOptionsEncoded(options[1..], rest, setOption(hint, options[0]), setOption);
    } else {
      assert StrTokens(options) + rest == rest;
    }
  }

  lemma {:induction false} DecodeKvsEncoded(kv: seq<(string, string)>, rest: seq<Token>, hint: SqlHint, setKv: KvSetter)
    ensures DecodeKvs(PairTokens(kv) + rest, |kv|, hint, setKv) == Ok((ReplayKvs(hint, kv, setKv), rest))
    decreases |kv|
  {
    if kv != [] {
      var after := PairTokens(kv[1..]) + rest;
      var ts := PairTokens(kv) + rest;
      assert ts == [StrToken(kv[0].0)] + ([StrToken(kv[0].1)] + after);
      DecodeKvsEncoded(kv[1..], rest, setKv(hint, kv[0].0, kv[0].1), setKv);
    } else {
      assert PairTokens(kv) + rest == rest;
    }
  }

  /** Reading a hint's encoding rebuilds the hint and leaves what follows it. */
  lemma DecodeHintEncoded(h: SqlHint, rest: seq<Token>, setOption: OptionSetter, setKv: KvSetter)
    ensures DecodeHint(EncodeHint(h) + rest, setOption, setKv) == Ok((Rebuilt(h, setOption, setKv), rest))
  {
    var r3 := [NumToken(|h.kvOptions|)] + PairTokens(h.kvOptions) + rest;
    var r2 := StrTokens(h.options) + r3;
    var ts := EncodeHint(h) + rest;
    assert ts == [StrToken(h.name)] + ([NumToken(|h.options|)] + r2);
    DecodeOptionsEncoded(h.options, r3, SqlHint(h.name, [], []), setOption);
    var h1 := ReplayOptions(SqlHint(h.name, [], []), h.options, setOption);
    assert r3 == [NumToken(|h.kvOptions|)] + (PairTokens(h.kvOptions) + rest);
    DecodeKvsEncoded(h.kvOptions, rest, h1, setKv);
  }

  lemma {:induction false} DecodeHintListEncoded(hs: seq<SqlHint>, rest: seq<Token>, hints: seq<SqlHint>,
                                                 setOption: OptionSetter, setKv: KvSetter)
    ensures DecodeHintList(EncodeHintList(hs) + rest, |hs|, hints, setOption, setKv)
         == Ok((hints + RebuiltAll(hs, setOption, setKv), rest))
    decreases |hs|
  {
    if hs == [] {
      assert hints + RebuiltAll(hs, setOption, setKv) == hints;
      assert EncodeHintList(hs) + rest == rest;
    } else {
      var ts := EncodeHintList(hs) + rest;
      var after := EncodeHintList(hs[1..]) + rest;
      assert ts == EncodeHint(hs[0]) + after;
      DecodeHintEncoded(hs[0], after, setOption, setKv);
      var h := Rebuilt(hs[0], setOption, setKv);
      DecodeHintListStep(ts, |hs|, hints, setOption, setKv);
      DecodeHintListEncoded(hs[1..], rest, hints + [h], setOption, setKv);
      RebuiltAllCons(hs, hints, setOption, setKv);
    }
  }

  /** One turn of the hint loop. */
  lemma DecodeHintListStep(ts: seq<Token>, n: nat, hints: seq<SqlHint>, setOption: OptionSetter, setKv: KvSetter)
    requires n > 0 && DecodeHint(ts, setOption, setKv).Ok?
    ensures var (h, rest) := DecodeHint(ts, setOption, setKv).value;
      DecodeHintList(ts, n, hints, setOption, setKv) == DecodeHintList(rest, n - 1, hints + [h], setOption, setKv)
  {
  }

  lemma RebuiltAllCons(hs: seq<SqlHint>, hints: seq<SqlHint>, setOption: OptionSetter, setKv: KvSetter)
    requires hs != []
    ensures hints + [Rebuilt(hs[0], setOption, setKv)] + RebuiltAll(hs[1..], setOption, setKv)
         == hints + RebuiltAll(hs, setOption, setKv)
  {
    var all := RebuiltAll(hs, setOption, setKv);
    assert all == [all[0]] + all[1..];
    assert all[1..] == RebuiltAll(hs[1..], setOption, setKv);
  }

  /** `SqlHints::deserialize` of what `serialize` wrote: the hints it held
      before, followed by each written hint rebuilt, in order, leaving what
      follows the encoding unread. */
  lemma DecodeHintsEncoded(hs: seq<SqlHint>, rest: seq<Token>, hints: seq<SqlHint>,
                           setOption: OptionSetter, setKv: KvSetter)
    ensures DecodeHints(EncodeHints(hs) + rest, hints, setOption, setKv)
         == Ok((hints + RebuiltAll(hs, setOption, setKv), rest))
  {
    assert EncodeHints(hs) + rest == [NumToken(|hs|)] + (EncodeHintList(hs) + rest);
    DecodeHintListEncoded(hs, rest, hints, setOption, setKv);
  }

  /** Setters that append, as a vector of options and a list of pairs would. */
  function AppendOption(h: SqlHint, option: string): SqlHint
  {
    h.(options := h.options + [option])
  }

  function AppendKv(h: SqlHint, key: string, value: string): SqlHint
  {
    h.(kvOptions := h.kvOptions + [(key, value)])
  }

  lemma {:induction false} ReplayOptionsAppends(hint: SqlHint, options: seq<string>)
    ensures ReplayOptions(hint, options, AppendOption) == hint.(options := hint.options + options)
    decreases |options|
  {
    if options != [] {
      ReplayOptionsAppends(AppendOption(hint, options[0]), options[1..]);
      assert hint.options + [options[0]] + options[1..] == hint.options + options;
    } else {
      assert hint.options + options == hint.options;
    }
  }

  lemma {:induction false} ReplayKvsAppends(hint: SqlHint, kv: seq<(string, string)>)
    ensures ReplayKvs(hint, kv, AppendKv) == hint.(kvOptions := hint.kvOptions + kv)
    decreases |kv|
  {
    if kv != [] {
      ReplayKvsAppends(AppendKv(hint, kv[0].0, kv[0].1), kv[1..]);
      assert hint.kvOptions + [(kv[0].0, kv[0].1)] + kv[1..] == hint.kvOptions + kv;
    } else {
      assert hint.kvOptions + kv == hint.kvOptions;
    }
  }

  lemma RebuiltAppends(h: SqlHint)
    ensures Rebuilt(h, AppendOption, AppendKv) == h
  {
    var empty := SqlHint(h.name, [], []);
    ReplayOptionsAppends(empty, h.options);
    assert [] + h.options == h.options;
    var h1 := SqlHint(h.name, h.options, []);
    assert ReplayOptions(empty, h.options, AppendOption) == h1;
    ReplayKvsAppends(h1, h.kvOptions);
    assert [] + h.kvOptions == h.kvOptions;
  }

  /** With appending setters, reading back what was written gives the
      existing hints followed by exactly the written ones. */
  lemma HintsRoundTrip(hs: seq<SqlHint>, hints: seq<SqlHint>, rest: seq<Token>)
    ensures DecodeHints(EncodeHints(hs) + rest, hints, AppendOption, AppendKv) == Ok((hints + hs, rest))
  {
    DecodeHintsEncoded(hs, rest, hints, AppendOption, AppendKv);
    forall i | 0 <= i < |hs|
      ensures RebuiltAll(hs, AppendOption, AppendKv)[i] == hs[i]
    {
      RebuiltAppends(hs[i]);
    }
    assert RebuiltAll(hs, AppendOption, AppendKv) == hs;
  }

  // ---------------------------------------------------------------------
  // Buffers

  class WriteBuffer {
    var tokens: seq<Token>

    constructor()
      ensures tokens == []
    {
      tokens := [];
    }

    method WriteString(s: string)
      modifies this
      ensures tokens == old(tokens) + [StrToken(s)]
    {
      tokens := tokens + [StrToken(s)];
    }

    method WriteNum(n: nat)
      modifies this
      ensures tokens == old(tokens) + [NumToken(n)]
    {
      tokens := tokens + [NumToken(n)];
    }
  }

  /** The value part of a read. */
  function Value<T>(r: Result<(T, seq<Token>), ReadError>): Result<T, ReadError>
  {
    match r
    case Err(e) => Err(e)
    case Ok((v, _)) => Ok(v)
  }

  /** A read buffer: the tokens not read yet. */
  class ReadBuffer {
    var unread: seq<Token>

    constructor(ts: seq<Token>)
      ensures unread == ts
    {
      unread := ts;
    }

    method ReadString() returns (r: Result<string, ReadError>)
      modifies this
      ensures r == Value(ReadStr(old(unread)))
      ensures r.Ok? ==> unread == ReadStr(old(unread)).value.1
    {
      r := Value(ReadStr(unread));
      if r.Ok? {
        unread := unread[1..];
      }
    }

    method ReadNumber() returns (r: Result<nat, ReadError>)
      modifies this
      ensures r == Value(ReadNum(old(unread)))
      ensures r.Ok? ==> unread == ReadNum(old(unread)).value.1
    {
      r := Value(ReadNum(unread));
      if r.Ok? {
        unread := unread[1..];
      }
    }
  }

  /** The option loop of `SqlHint::serialize`. */
  method WriteOptions(options: seq<string>, buf: WriteBuffer)
    modifies buf
    ensures buf.tokens == old(buf.tokens) + StrTokens(options)
  {
    ghost var t0 := buf.tokens;
    for i := 0 to |options|
      invariant buf.tokens == t0 + StrTokens(options[..i])
    {
      buf.WriteString(options[i]);
      assert StrTokens(options[..i + 1]) == StrTokens(options[..i]) + [StrToken(options[i])];
    }
    assert options[..|options|] == options;
  }

  /** The key/value loop of `SqlHint::serialize`. */
  method WritePairs(kv: seq<(string, string)>, buf: WriteBuffer)
    modifies buf
    ensures buf.tokens == old(buf.tokens) + PairTokens(kv)
  {
    ghost var t0 := buf.tokens;
    for i := 0 to |kv|
      invariant buf.tokens == t0 + PairTokens(kv[..i])
    {
      buf.WriteString(kv[i].0);
      buf.WriteString(kv[i].1);
      PairTokensSnoc(kv, i);
    }
    assert kv[..|kv|] == kv;
  }

  /** `SqlHint::serialize`. */
  method SerializeHint(h: SqlHint, buf: WriteBuffer)
    modifies buf
    ensures buf.tokens == old(buf.tokens) + EncodeHint(h)
  {
    ghost var t0 := buf.tokens;
    buf.WriteString(h.name);
    buf.WriteNum(|h.options|);
    WriteOptions(h.options, buf);
    buf.WriteNum(|h.kvOptions|);
    WritePairs(h.kvOptions, buf);
    assert buf.tokens == t0 + ([StrToken(h.name), NumToken(|h.options|)] + StrTokens(h.options)
      + [NumToken(|h.kvOptions|)] + PairTokens(h.kvOptions));
  }

  /** The option loop of `SqlHint::deserialize`. */
  method ReadOptions(buf: ReadBuffer, n: nat, hint0: SqlHint, setOption: OptionSetter) returns (r: Result<SqlHint, ReadError>)
    modifies buf
    ensures r == Value(DecodeOptions(old(buf.unread), n, hint0, setOption))
    ensures r.Ok? ==> buf.unread == DecodeOptions(old(buf.unread), n, hint0, setOption).value.1
  {
    ghost var ts := buf.unread;
    var hint := hint0;
    for i := 0 to n
      invariant DecodeOptions(ts, n, hint0, setOption) == DecodeOptions(buf.unread, n - i, hint, setOption)
    {
      var option := buf.ReadString();
      if option.Err? {
        return Err(option.error);
      }
      hint := setOption(hint, option.value);
    }
    return Ok(hint);
  }

  /** The key/value loop of `SqlHint::deserialize`. */
  method ReadKvs(buf: ReadBuffer, n: nat, hint0: SqlHint, setKv: KvSetter) returns (r: Result<SqlHint, ReadError>)
    modifies buf
    ensures r == Value(DecodeKvs(old(buf.unread), n, hint0, setKv))
    ensures r.Ok? ==> buf.unread == DecodeKvs(old(buf.unread), n, hint0, setKv).value.1
  {
    ghost var ts := buf.unread;
    var hint := hint0;
    for i := 0 to n
      invariant DecodeKvs(ts, n, hint0, setKv) == DecodeKvs(buf.unread, n - i, hint, setKv)
    {
      var key := buf.ReadString();
      if key.Err? {
        return Err(key.error);
      }
      var value := buf.ReadString();
      if value.Err? {
        return Err(value.error);
      }
      hint := setKv(hint, key.value, value.value);
    }
    return Ok(hint);
  }

  /** `SqlHint::deserialize`: on success the buffer stands right after the hint. */
  method DeserializeHint(buf: ReadBuffer, setOption: OptionSetter, setKv: KvSetter) returns (r: Result<SqlHint, ReadError>)
    modifies buf
    ensures r == Value(DecodeHint(old(buf.unread), setOption, setKv))
    ensures r.Ok? ==> buf.unread == DecodeHint(old(buf.unread), setOption, setKv).value.1
  {
    var name := buf.ReadString();
    if name.Err? {
      return Err(name.error);
    }
    var size := buf.ReadNumber();
    if size.Err? {
      return Err(size.error);
    }
    var hint := ReadOptions(buf, size.value, SqlHint(name.value, [], []), setOption);
    if hint.Err? {
      return hint;
    }
    size := buf.ReadNumber();
    if size.Err? {
      return Err(size.error);
    }
    r := ReadKvs(buf, size.value, hint.value, setKv);
  }

  /** The hint loop of `SqlHints::serialize`. */
  method WriteHintList(hs: seq<SqlHint>, buf: WriteBuffer)
    modifies buf
    ensures buf.tokens == old(buf.tokens) + EncodeHintList(hs)
  {
    ghost var t0 := buf.tokens;
    for i := 0 to |hs|
      invariant buf.tokens == t0 + EncodeHintList(hs[..i])
    {
      SerializeHint(hs[i], buf);
      EncodeHintListSnoc(hs, i);
    }
    assert hs[..|hs|] == hs;
  }

  /** `SqlHints`: a list of hints that reading appends to. */
  class SqlHints {
    var hints: seq<SqlHint>

    constructor()
      ensures hints == []
    {
      hints := [];
    }

    method Serialize(buf: WriteBuffer)
      modifies buf
      ensures buf.tokens == old(buf.tokens) + EncodeHints(hints)
    {
      buf.WriteNum(|hints|);
      WriteHintList(hints, buf);
    }

    /** On success the hints read follow the ones held before; on failure
        the hints read before the error have been appended. */
    method Deserialize(buf: ReadBuffer, setOption: OptionSetter, setKv: KvSetter) returns (r: Result<(), ReadError>)
      modifies this, buf
      ensures r.Ok? <==> DecodeHints(old(buf.unread), old(hints), setOption, setKv).Ok?
      ensures r.Ok? ==> (hints, buf.unread) == DecodeHints(old(buf.unread), old(hints), setOption, setKv).value
      ensures |old(hints)| <= |hints| && hints[..|old(hints)|] == old(hints)
    {
      ghost var h0 := hints;
      var size := buf.ReadNumber();
      if size.Err? {
        return Err(size.error);
      }
      ghost var r1 := buf.unread;
      for i := 0 to size.value
        invariant DecodeHintList(r1, size.value, h0, setOption, setKv)
               == DecodeHintList(buf.unread, size.value - i, hints, setOption, setKv)
        invariant |h0| <= |hints| && hints[..|h0|] == h0
      {
        var hint := DeserializeHint(buf, setOption, setKv);
        if hint.Err? {
          return Err(hint.error);
        }
        hints := hints + [hint.value];
      }
      return Ok(());
    }
  }
}
