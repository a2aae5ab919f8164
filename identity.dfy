/**
 * The identifier codec: a 32-bit account id and the 64-bit community id
 * (the "steam id") that carries it in its low word. The community id
 * travels as a decimal string.
 */
module Identity {
  import opened Wrappers
  import opened Decimal
  import opened JsValues
  import opened Http

  /** Universe 1 (public), account type 1 (individual), instance 1 (desktop). */
  const IndividualHighWord: int := 0x1100001

  /** The community id of account 0: IndividualHighWord * 2^32. */
  const CommunityIdBase: int := 76561197960265728

  /**
   * The low word `new Long(parseInt(accountId, 10), high)` stores, read
   * unsigned: parseInt's result modulo 2^32, and 0 when it is NaN.
   */
  function AccountIdBits(accountId: Value): (low: int)
    ensures 0 <= low < TwoTo32
    ensures accountId.Num? ==> low == accountId.n % TwoTo32
  {
    ParseIntOfIntString(if accountId.Num? then accountId.n else 0);
    match ParseInt(ToJsString(accountId))
    case None => 0
    case Some(a) => ToUint32(a)
  }

  /** The 64-bit community id toSteamId builds, as a number. */
  function CommunityId(accountId: Value): (id: nat)
    ensures id / TwoTo32 == IndividualHighWord
    ensures id % TwoTo32 == AccountIdBits(accountId)
    ensures id == CommunityIdBase + AccountIdBits(accountId)
  {
    var low := AccountIdBits(accountId);
    HighWordSplit(low);
    IndividualHighWord * TwoTo32 + low
  }

  /** The high word and the low word of a community id come apart again. */
  lemma HighWordSplit(low: int)
    requires 0 <= low < TwoTo32
    ensures IndividualHighWord * TwoTo32 == CommunityIdBase
    ensures (CommunityIdBase + low) / TwoTo32 == IndividualHighWord
    ensures (CommunityIdBase + low) % TwoTo32 == low
  {
  }

  /** toSteamId: the community id of an account id, in decimal. */
  function ToSteamId(accountId: Value): (s: string)
    ensures s != [] && AllDigits(s) && s[0] != '0'
    ensures DigitsValue(s) == CommunityIdBase + AccountIdBits(accountId)
  {
    var id := CommunityId(accountId);
    DigitsValueOfNatToString(id);
    assert id != 0;
    NatToString(id)
  }

  /**
   * long.js's Long.fromString(s) with radix 10, as an exact integer (the
   * 64-bit wrap-around it performs does not change the low word, which is
   * all toAccountId keeps): the empty string throws; "NaN" and the
   * infinities are zero; a leading hyphen negates the rest; any later
   * hyphen throws; any other string is read by ReadChunks.
   */
  function LongFromString(s: string): (r: Result<int>)
    ensures AllDigits(s) && s != [] ==> r == Ok(DigitsValue(s))
    decreases |s|
  {
    if s == [] then Err(Uncaught("empty string"))
    else if s == "NaN" || s == "Infinity" || s == "+Infinity" || s == "-Infinity" then Ok(0)
    else if s[0] == '-' then
      match LongFromString(s[1..])
      case Ok(v) => Ok(-v)
      case Err(e) => Err(e)
    else if '-' in s then Err(Uncaught("interior hyphen"))
    else
      ReadDigits(s);
      Ok(ReadChunks(0, s))
  }

  /** From an empty start, the chunked read of a numeral is its value. */
  lemma ReadDigits(s: string)
    ensures AllDigits(s) ==> ReadChunks(0, s) == DigitsValue(s)
  {
    ReadChunksOfDigits(0, s);
  }

  /** One chunk through parseInt; fromNumber turns a NaN into zero. */
  function ChunkValue(chunk: string): int {
    match ParseInt(chunk)
    case None => 0
    case Some(v) => v
  }

  /** The length of the next chunk: eight characters, or what is left. */
  function ChunkSize(n: nat): (size: nat)
    ensures size <= n && (n > 0 ==> size > 0)
  {
    if n < 8 then n else 8
  }

  /**
   * long.js's digit loop: eight characters at a time, the result so far
   * multiplied by 10 to the chunk's length and the chunk's value added.
   */
  function ReadChunks(acc: int, s: string): int
    decreases |s|
  {
    if s == [] then acc else ReadChunks(NextAcc(acc, s), s[ChunkSize(|s|)..])
  }

  /** The result after one more chunk of s has been read. */
  function NextAcc(acc: int, s: string): int
    requires s != []
  {
    acc * Pow10(ChunkSize(|s|)) + ChunkValue(s[..ChunkSize(|s|)])
  }

  /** On a string of digits the chunked read is the numeral's value. */
  lemma {:induction false} ReadChunksOfDigits(acc: int, s: string)
    ensures AllDigits(s) ==> ReadChunks(acc, s) == acc * Pow10(|s|) + DigitsValue(s)
    decreases |s|
  {
    if s == [] {
      assert DigitsValue(s) == 0;
    } else if AllDigits(s) {
      var size := ChunkSize(|s|);
      var rest := s[size..];
      ChunkOfDigits(s, size);
      Pow10OfSplit(s, size);
      ReadChunksOfDigits(NextAcc(acc, s), rest);
      ShiftAdd(ReadChunks(acc, s), NextAcc(acc, s), acc, Pow10(size), Pow10(|rest|), Pow10(|s|),
               DigitsValue(s[..size]), DigitsValue(rest), DigitsValue(s));
    }
  }

  /** Splitting a numeral into a chunk and the rest, and reading the chunk. */
  lemma ChunkOfDigits(s: string, size: nat)
    requires AllDigits(s) && 0 < size <= |s|
    ensures AllDigits(s[..size]) && AllDigits(s[size..])
    ensures ChunkValue(s[..size]) == DigitsValue(s[..size])
    ensures DigitsValue(s) == DigitsValue(s[..size]) * Pow10(|s[size..]|) + DigitsValue(s[size..])
  {
    var chunk, rest := s[..size], s[size..];
    assert s == chunk + rest;
    ParseIntOfDigits(chunk);
    DigitsValueAppend(chunk, rest);
  }

  lemma Pow10OfSplit(s: string, size: nat)
    requires size <= |s|
    ensures Pow10(|s|) == Pow10(size) * Pow10(|s[size..]|)
  {
    var m := |s[size..]|;
    Pow10Add(size, m);
    assert size + m == |s|;
  }

  /** The arithmetic of one turn: shifting past a chunk and then past the rest is shifting past both. */
  lemma ShiftAdd(total: int, next: int, acc: int, p: int, q: int, pq: int, c: int, r: int, v: int)
    requires total == next * q + r && next == acc * p + c
    requires pq == p * q && v == c * q + r
    ensures total == acc * pq + v
  {
    calc {
      total;
      (acc * p + c) * q + r;
      (acc * p) * q + c * q + r;
      { assert (acc * p) * q == acc * (p * q); }
      acc * pq + v;
    }
  }

  /** Every character of s is a hyphen (the empty string included). */
  predicate OnlyHyphens(s: string) {
    forall i :: 0 <= i < |s| ==> s[i] == '-'
  }

  /** Some hyphen in s comes after a character that is not one. */
  predicate LaterHyphen(s: string) {
    exists i, j :: 0 <= i < j < |s| && s[i] != '-' && s[j] == '-'
  }

  /**
   * Long.fromString throws exactly on a string that is empty once its
   * leading hyphens are gone, or that has a hyphen after some other
   * character; it reads every other string as a number.
   */
  lemma {:induction false} LongFromStringThrows(s: string)
    ensures LongFromString(s).Err? <==> OnlyHyphens(s) || LaterHyphen(s)
    decreases |s|
  {
    if s == [] {
    } else if s == "NaN" || s == "Infinity" || s == "+Infinity" || s == "-Infinity" {
      assert !OnlyHyphens(s) by { assert s[|s| - 1] != '-'; }
      assert !LaterHyphen(s) by {
        forall i, j | 0 <= i < j < |s| ensures !(s[i] != '-' && s[j] == '-') {
          assert j >= 1 && s[j] != '-';
        }
      }
    } else if s[0] == '-' {
      LongFromStringThrows(s[1..]);
      LeadingHyphen(s);
    } else if '-' in s {
      var j :| 0 <= j < |s| && s[j] == '-';
      assert 0 < j && s[0] != '-';
    } else {
      assert !OnlyHyphens(s) by { assert s[0] != '-'; }
      assert !LaterHyphen(s) by {
        forall i, j | 0 <= i < j < |s| ensures !(s[i] != '-' && s[j] == '-') {
          assert s[j] in s;
        }
      }
    }
  }

  /** Dropping one leading hyphen changes neither predicate. */
  lemma LeadingHyphen(s: string)
    requires s != [] && s[0] == '-'
    ensures OnlyHyphens(s) <==> OnlyHyphens(s[1..])
    ensures LaterHyphen(s) <==> LaterHyphen(s[1..])
  {
    var t := s[1..];
    if OnlyHyphens(t) {
      forall i | 0 <= i < |s| ensures s[i] == '-' {
        if i > 0 { assert s[i] == t[i - 1]; }
      }
    }
    if OnlyHyphens(s) {
      forall i | 0 <= i < |t| ensures t[i] == '-' { assert t[i] == s[i + 1]; }
    }
    if LaterHyphen(s) {
      var i, j :| 0 <= i < j < |s| && s[i] != '-' && s[j] == '-';
      assert i > 0;
      assert t[i - 1] != '-' && t[j - 1] == '-';
    }
    if LaterHyphen(t) {
      var i, j :| 0 <= i < j < |t| && t[i] != '-' && t[j] == '-';
      assert s[i + 1] != '-' && s[j + 1] == '-';
    }
  }

  /**
   * toAccountId: the low word of a community id, read as a signed 32-bit
   * integer (Long.toInt) and printed in decimal.
   */
  function ToAccountId(steamId: Value): (r: Result<string>)
    ensures !steamId.Str? ==> r == Err(TypeErrorThrown)
    ensures steamId.Str? ==> (r.Err? <==> OnlyHyphens(steamId.s) || LaterHyphen(steamId.s))
    ensures steamId.Str? && steamId.s != [] && AllDigits(steamId.s) ==>
              r == Ok(IntToString(ToInt32(DigitsValue(steamId.s))))
    ensures steamId.Str? && LongFromString(steamId.s).Ok? ==>
              r == Ok(IntToString(ToInt32(LongFromString(steamId.s).value)))
    ensures r.Ok? ==> ParseInt(r.value).Some? && -TwoTo31 <= ParseInt(r.value).value < TwoTo31
  {
    match steamId
    case Str(s) =>
      LongFromStringThrows(s);
      (match LongFromString(s)
       case Ok(v) => ParseIntOfIntString(ToInt32(v)); Ok(IntToString(ToInt32(v)))
       case Err(e) => Err(e))
    case _ => Err(TypeErrorThrown)
  }

  /**
   * The community id a request names its partner by:
   * `partnerSteamId || toSteamId(partnerAccountId)`.
   */
  function PartnerSteamId(partnerSteamId: Value, partnerAccountId: Value): (v: Value)
    ensures Truthy(partnerSteamId) ==> v == partnerSteamId
    ensures !Truthy(partnerSteamId) ==> v == Str(ToSteamId(partnerAccountId))
    ensures !Truthy(partnerSteamId) ==>
              ToAccountId(v) == Ok(IntToString(ToInt32(AccountIdBits(partnerAccountId))))
  {
    if Truthy(partnerSteamId) then partnerSteamId
    else
      AccountIdReadsBack(partnerAccountId);
      LowWordUnderHighWord(AccountIdBits(partnerAccountId));
      Str(ToSteamId(partnerAccountId))
  }

  /** toSteamId puts the account id, modulo 2^32, under the fixed high word. */
  lemma SteamIdOfNumber(a: int)
    ensures DigitsValue(ToSteamId(Num(a))) == IndividualHighWord * TwoTo32 + a % TwoTo32
  {
  }

  /**
   * Going to a community id and back gives the signed low word of the
   * account id: the account id itself when it is below 2^31.
   */
  lemma {:induction false} AccountIdRoundTrip(a: int)
    ensures ToAccountId(Str(ToSteamId(Num(a)))) == Ok(IntToString(ToInt32(a)))
    ensures 0 <= a < TwoTo31 ==> ToAccountId(Str(ToSteamId(Num(a)))) == Ok(IntToString(a))
    ensures TwoTo31 <= a < TwoTo32 ==> ToAccountId(Str(ToSteamId(Num(a)))) == Ok(IntToString(a - TwoTo32))
  {
    AccountIdReadsBack(Num(a));
    SignedLowWord(a);
    if TwoTo31 <= a < TwoTo32 {
      ToInt32OfUpperHalf(a);
    }
  }

  /** toAccountId of a printed community id is the signed low word of its value. */
  lemma AccountIdReadsBack(accountId: Value)
    ensures ToAccountId(Str(ToSteamId(accountId))) == Ok(IntToString(ToInt32(CommunityIdBase + AccountIdBits(accountId))))
  {
    SteamIdReadsBack(accountId);
  }

  /** long.js reads a printed community id back as the number it is. */
  lemma SteamIdReadsBack(accountId: Value)
    ensures LongFromString(ToSteamId(accountId)) == Ok(CommunityIdBase + AccountIdBits(accountId))
  {
    var s := ToSteamId(accountId);
    assert s != "NaN" && s != "Infinity" && s != "+Infinity" && s != "-Infinity" by {
      assert IsDigit(s[0]);
    }
    assert s[0] != '-' && '-' !in s;
  }

  /** The signed low word of a community id is that of its account id. */
  lemma SignedLowWord(a: int)
    ensures ToInt32(CommunityIdBase + AccountIdBits(Num(a))) == ToInt32(a)
  {
    LowWordUnderHighWord(a % TwoTo32);
    ToInt32OfLowWord(a);
  }

  /** The high word does not disturb the low word. */
  lemma LowWordUnderHighWord(low: int)
    requires 0 <= low < TwoTo32
    ensures ToUint32(CommunityIdBase + low) == low
    ensures ToInt32(CommunityIdBase + low) == ToInt32(low)
  {
    assert CommunityIdBase + low == IndividualHighWord * TwoTo32 + low;
  }

  /**
   * Every community id of an individual account comes back from its
   * account id: toSteamId(toAccountId(s)) == s.
   */
  lemma {:induction false} CommunityIdRoundTrip(n: nat)
    requires CommunityIdBase <= n < CommunityIdBase + TwoTo32
    ensures ToAccountId(Str(NatToString(n))).Ok?
    ensures ToSteamId(Str(ToAccountId(Str(NatToString(n))).value)) == NatToString(n)
  {
    var s := NatToString(n);
    DigitsValueOfNatToString(n);
    var low := ToInt32(n);
    assert ToAccountId(Str(s)) == Ok(IntToString(low));
    ParseIntOfIntString(low);
    ToUint32OfToInt32(n);
    LowWordUnderHighWord(n - CommunityIdBase);
    assert AccountIdBits(Str(IntToString(low))) == ToUint32(low);
    assert ToUint32(low) == n - CommunityIdBase;
    var t := ToSteamId(Str(IntToString(low)));
    assert DigitsValue(t) == n;
    NatToStringOfDigits(t);
  }

  /** A numeral without a leading zero is the one NatToString prints. */
  lemma {:induction false} NatToStringOfDigits(s: string)
    requires s != [] && AllDigits(s) && (s[0] != '0' || |s| == 1)
    ensures NatToString(DigitsValue(s)) == s
  {
    if |s| > 1 {
      var init := s[..|s| - 1];
      NatToStringOfDigits(init);
      LeadingDigitBound(init);
      assert DigitsValue(s) / 10 == DigitsValue(init);
      assert DigitsValue(s) % 10 == DigitValue(s[|s| - 1]);
      assert s == init + [s[|s| - 1]];
    }
  }

  lemma {:induction false} LeadingDigitBound(s: string)
    requires s != [] && AllDigits(s) && s[0] != '0'
    ensures DigitsValue(s) >= 1
  {
    if |s| > 1 {
      LeadingDigitBound(s[..|s| - 1]);
    }
  }
}
