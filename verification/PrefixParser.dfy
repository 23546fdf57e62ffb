/** Parsing of address prefixes, each an address and a mask length, into masked prefixes. */
module PrefixParser {
  import opened Optional
  import opened Powers
  import opened PrefixMask
  import opened Words

  datatype Family = V4 | V6 | INVALID

  type Quad = w: seq<Word> | |w| == 4 witness [0, 0, 0, 0]

  datatype Prefix = Prefix(fam: Family, v4Addr: Word, v4Mask: Word, v6Addr: Quad, v6Mask: Quad)

  function MakeBlankPrefix(fam: Family): Prefix {
    Prefix(fam, 0, 0, [0, 0, 0, 0], [0, 0, 0, 0])
  }

  method PopulateV4Mask(mask: int, prefix: Prefix) returns (ok: bool, out: Prefix)
    ensures ok <==> 0 <= mask <= 32
    ensures out == if ok then prefix.(v4Mask := out.v4Mask) else prefix
    ensures ok ==> out.v4Mask == Pow2(32) - Pow2(32 - mask)
  {
    if mask < 0 || mask > 32 { return false, prefix; }
    var word := CreateMask(mask);
    return true, prefix.(v4Mask := word);
  }

  lemma NextWord(words: Quad, i: nat, left: nat)
    requires i < 4
    ensures words[i := MaskWord(left)][..i + 1] + MaskWords(Less32(left), 3 - i) ==
            words[..i] + MaskWords(left, 4 - i)
  {
    assert MaskWords(left, 4 - i) == [MaskWord(left)] + MaskWords(Less32(left), 3 - i);
  }

  /** The four words spell mask ones followed by zeros. */
  method PopulateV6Mask(mask: int, prefix: Prefix) returns (ok: bool, out: Prefix)
    ensures ok <==> 0 <= mask <= 128
    ensures !ok ==> out == prefix
    ensures ok ==> out == prefix.(v6Mask := MaskWords(mask, 4))
    ensures ok ==> Value(out.v6Mask) == Pow2(128) - Pow2(128 - mask)
  {
    hide MaskWord, MaskWords, Value, Pow2, Less32;
    if mask < 0 || mask > 128 { return false, prefix; }
    MaskWordsValue(mask, 4);
    var words: Quad := prefix.v6Mask;
    var left := mask;
    for i := 0 to 4
      invariant left >= 0 && words[..i] + MaskWords(left, 4 - i) == MaskWords(mask, 4)
    {
      var word := CreateMask(left);
      NextWord(words, i, left);
      words := words[i := word];
      left := Less32(left);
    }
    assert words[..4] + MaskWords(left, 0) == words;
    return true, prefix.(v6Mask := words);
  }

  // ---------- the text of a prefix ----------

  function GuessIPFamily(text: string): Family {
    if ':' in text then V6 else V4
  }

  /** std::string::find: where the character first occurs. */
  function Find(text: string, c: char): (r: Option<nat>)
    ensures r.None? <==> c !in text
    ensures r.Some? ==> r.value < |text| && text[r.value] == c && c !in text[..r.value]
  {
    if text == [] then None
    else if text[0] == c then Some(0)
    else
      match Find(text[1..], c)
      case None => None
      case Some(k) =>
        assert text[..k + 1] == [text[0]] + text[1..][..k];
        Some(k + 1)
  }

  /** None for a text with nothing before its first slash. */
  function SplitIntoAddrAndMask(text: string): Option<(string, string)> {
    match Find(text, '/')
    case None => Some((text, ""))
    case Some(pos) => if pos >= 1 then Some((text[..pos], text[pos + 1..])) else None
  }

  /** A text splits into an address and a mask exactly when joining them with a slash gives it back. */
  lemma SplitExact(text: string, addr: string, mask: string)
    ensures SplitIntoAddrAndMask(text) == Some((addr, mask)) <==>
            '/' !in addr && ((text == addr && mask == "") || (text == addr + "/" + mask && addr != ""))
  {
    var pos := Find(text, '/');
    if pos.Some? && pos.value >= 1 {
      assert text == text[..pos.value] + "/" + text[pos.value + 1..];
    }
    if '/' !in addr && text == addr + "/" + mask && addr != "" {
      assert text[|addr|] == '/' && text[..|addr|] == addr && text[|addr| + 1..] == mask;
      assert pos == Some(|addr|);
    }
  }

  datatype Error =
    | NoError
    | NoAddress(text: string)
    | NegativeMask(mask: int) | ZeroMask | MaskTooLong(fam: Family, mask: int)
    | BadAddress(fam: Family, addr: string)
    | MaskNotPopulated(fam: Family, mask: int, addr: string)

  predicate MaskValid(mask: int, fam: Family) {
    0 < mask && (fam == V4 ==> mask <= 32) && (fam == V6 ==> mask <= 128)
  }

  class PrefixParser {
    // library functions: inet_pton for each family, and atoi
    const parseV4: string -> Option<Word>
    const parseV6: string -> Option<Quad>
    const atoi: string -> int

    var prefixes: seq<Prefix>
    var lastErr: Error
    ghost var lengths: seq<nat>     // the mask length each prefix was added with

    /** Every prefix carries the masks of its length; a V4 prefix carries that length's V6 masks as well. */
    ghost predicate Valid()
      reads this
    {
      && |lengths| == |prefixes|
      && forall i | 0 <= i < |prefixes| :: Masked(prefixes[i], lengths[i])
    }

    static ghost predicate Masked(p: Prefix, length: nat) {
      && p.fam != INVALID && MaskValid(length, p.fam)
      && p.v4Mask == (if p.fam == V4 then Pow2(32) - Pow2(32 - length) else 0)
      && p.v6Mask == MaskWords(length, 4)
    }

    constructor (parseV4: string -> Option<Word>, parseV6: string -> Option<Quad>, atoi: string -> int)
      ensures Valid() && prefixes == [] && lastErr == NoError
      ensures this.parseV4 == parseV4 && this.parseV6 == parseV6 && this.atoi == atoi
    {
      this.parseV4, this.parseV6, this.atoi := parseV4, parseV6, atoi;
      prefixes, lengths, lastErr := [], [], NoError;
    }

    function ParseSubnetMask(text: string, fam: Family): int {
      if text == "" then if fam == V6 then 128 else 32 else atoi(text)
    }

    method IsMaskValid(mask: int, fam: Family) returns (ok: bool)
      modifies this`lastErr
      ensures ok <==> MaskValid(mask, fam)
      ensures lastErr == if ok then old(lastErr)
                         else if mask < 0 then NegativeMask(mask)
                         else if mask == 0 then ZeroMask
                         else MaskTooLong(fam, mask)
    {
      if mask < 0 {
        lastErr := NegativeMask(mask);
        return false;
      } else if mask == 0 {
        lastErr := ZeroMask;
        return false;
      } else if fam == V4 && mask > 32 {
        lastErr := MaskTooLong(V4, mask);
        return false;
      } else if fam == V6 && mask > 128 {
        lastErr := MaskTooLong(V6, mask);
        return false;
      }
      return true;
    }

    static function Fam(text: string, hint: Family): (fam: Family)
      ensures fam != INVALID
    {
      if hint == INVALID then GuessIPFamily(text) else hint
    }

    /** What a text adds: a prefix and the length of its mask, if the text is accepted. */
    function Parsed(text: string, hint: Family): Option<(Prefix, nat)> {
      var fam := Fam(text, hint);
      match SplitIntoAddrAndMask(text)
      case None => None
      case Some((addr, mask)) =>
        var length := ParseSubnetMask(mask, fam);
        if !MaskValid(length, fam) then None
        else
          var blank := MakeBlankPrefix(fam).(v6Mask := MaskWords(length, 4));
          if fam == V4 then
            if parseV4(addr).None? then None
            else Some((blank.(v4Addr := parseV4(addr).value, v4Mask := MaskWord(length)), length))
          else
            if parseV6(addr).None? then None
            else Some((blank.(v6Addr := parseV6(addr).value), length))
    }

    /** The text is this address with this mask, and stands for this prefix of this length. */
    ghost predicate Means(text: string, hint: Family, addr: string, mask: string, p: Prefix, length: nat) {
      && '/' !in addr && ((text == addr && mask == "") || (text == addr + "/" + mask && addr != ""))
      && p.fam == (if hint != INVALID then hint else if ':' in text then V6 else V4)
      && length == (if mask != "" then atoi(mask) else if p.fam == V6 then 128 else 32)
      && 0 < length <= (if p.fam == V6 then 128 else 32)
      && (if p.fam == V6 then parseV6(addr) == Some(p.v6Addr) && p.v4Addr == 0
          else parseV4(addr) == Some(p.v4Addr) && p.v6Addr == [0, 0, 0, 0])
      && p.v4Mask == (if p.fam == V6 then 0 else Pow2(32) - Pow2(32 - length))
      && p.v6Mask == MaskWords(length, 4)
    }

    /** A text is accepted, as one prefix of one length, exactly when that is what it means. */
    lemma ParsedExact(text: string, hint: Family, p: Prefix, length: nat)
      ensures Parsed(text, hint) == Some((p, length)) <==>
              exists addr, mask :: Means(text, hint, addr, mask, p, length)
    {
      hide Pow2, MaskWord, MaskWords, Find;
      var split := SplitIntoAddrAndMask(text);
      if Parsed(text, hint) == Some((p, length)) {
        var (addr, mask) := split.value;
        SplitExact(text, addr, mask);
        MaskWordIs(length);
        assert Means(text, hint, addr, mask, p, length);
      }
      if addr, mask :| Means(text, hint, addr, mask, p, length) {
        SplitExact(text, addr, mask);
        MaskWordIs(length);
      }
    }

    /** Why a text is refused. */
    ghost predicate RefusedFor(text: string, hint: Family, error: Error) {
      var fam := if hint != INVALID then hint else if ':' in text then V6 else V4;
      match SplitIntoAddrAndMask(text)
      case None => error == NoAddress(text)
      case Some((addr, mask)) =>
        var length := if mask != "" then atoi(mask) else if fam == V6 then 128 else 32;
        if length < 0 then error == NegativeMask(length)
        else if length == 0 then error == ZeroMask
        else if length > (if fam == V6 then 128 else 32) then error == MaskTooLong(fam, length)
        else error == BadAddress(fam, addr)
    }

    method Add(text: string, hint: Family) returns (ok: bool)
      requires Valid()
      modifies this
      ensures Valid()
      ensures ok <==> Parsed(text, hint).Some?
      ensures !ok ==> prefixes == old(prefixes) && lengths == old(lengths) && RefusedFor(text, hint, lastErr)
      ensures ok ==> prefixes == old(prefixes) + [Parsed(text, hint).value.0] && lastErr == old(lastErr)
      ensures ok ==> lengths == old(lengths) + [Parsed(text, hint).value.1]
    {
      hide Pow2, MaskWords, Value;
      var fam := hint;
      if hint == INVALID {
        fam := GuessIPFamily(text);
      }
      var split := SplitIntoAddrAndMask(text);
      if split.None? {
        lastErr := NoAddress(text);
        return false;
      }
      var addr := split.value.0;
      var mask := ParseSubnetMask(split.value.1, fam);
      var valid := IsMaskValid(mask, fam);
      if !valid { return false; }

      var pre := MakeBlankPrefix(fam);
      if fam == V4 {
        var parsed := parseV4(addr);
        if parsed.None? {
          lastErr := BadAddress(V4, addr);
          return false;
        }
        pre := pre.(v4Addr := parsed.value);
      } else {
        var parsed := parseV6(addr);
        if parsed.None? {
          lastErr := BadAddress(V6, addr);
          return false;
        }
        pre := pre.(v6Addr := parsed.value);
      }

      var populated := true;
      if fam == V4 {
        populated, pre := PopulateV4Mask(mask, pre);
      }
      if !populated {
        assert false;   // a valid mask is not too long
      }
      populated, pre := PopulateV6Mask(mask, pre);
      if !populated {
        assert false;
      }
      MaskWordIs(mask);
      prefixes, lengths := prefixes + [pre], lengths + [mask];
      return true;
    }

    /** Stops at the first text that is not accepted, keeping what was added before it. */
    method AddAll(texts: seq<string>, hint: Family) returns (ok: bool, ghost added: nat)
      requires Valid()
      modifies this
      ensures Valid() && added <= |texts|
      ensures if ok then added == |texts| else added < |texts| && Parsed(texts[added], hint).None?
      ensures forall i | 0 <= i < added :: Parsed(texts[i], hint).Some?
      ensures |prefixes| == |old(prefixes)| + added && prefixes[..|old(prefixes)|] == old(prefixes)
      ensures forall i | 0 <= i < added :: prefixes[|old(prefixes)| + i] == Parsed(texts[i], hint).value.0
    {
      hide Parsed, Valid, RefusedFor;
      var i: nat := 0;
      added := 0;
      while i < |texts|
        invariant i == added <= |texts| && Valid()
        invariant |prefixes| == |old(prefixes)| + i && prefixes[..|old(prefixes)|] == old(prefixes)
        invariant forall j | 0 <= j < i :: Parsed(texts[j], hint).Some?
        invariant forall j | 0 <= j < i :: prefixes[|old(prefixes)| + j] == Parsed(texts[j], hint).value.0
      {
        ok := Add(texts[i], hint);
        if !ok { return; }
        i := i + 1;
        added := i;
      }
      ok := true;
    }

    /** Everything after the prefix is zero in the address. */
    static ghost predicate HostPartZero(p: Prefix, length: nat)
      requires MaskValid(length, p.fam) && p.fam != INVALID
    {
      if p.fam == V4 then p.v4Addr % Pow2(32 - length) == 0
      else Value(p.v6Addr) % Pow2(128 - length) == 0
    }

    /** The comparison that allAreFullyQualified makes of one prefix with its masked form. */
    static method IsMasked(p: Prefix, ghost length: nat) returns (r: bool)
      requires Masked(p, length)
      ensures r <==> HostPartZero(p, length)
    {
      hide Pow2, MaskWords, MaskWord, Value, And;
      if p.fam == V4 {
        MaskWordIs(length);
        SurvivesExact(p.v4Addr, length);
        var masked := And(p.v4Addr, p.v4Mask);
        return masked == p.v4Addr;
      }
      WordsSurviveExact(p.v6Addr, length);
      for j := 0 to 4
        invariant forall k | 0 <= k < j :: And(p.v6Addr[k], p.v6Mask[k]) == p.v6Addr[k]
      {
        if And(p.v6Addr[j], p.v6Mask[j]) != p.v6Addr[j] { return false; }
      }
      return true;
    }

    method AllAreFullyQualified() returns (r: bool)
      requires Valid()
      ensures r <==> forall i | 0 <= i < |prefixes| :: HostPartZero(prefixes[i], lengths[i])
    {
      hide Pow2, MaskWords, Value, HostPartZero;
      for i := 0 to |prefixes|
        invariant forall k | 0 <= k < i :: HostPartZero(prefixes[k], lengths[k])
      {
        var masked := IsMasked(prefixes[i], lengths[i]);
        if !masked { return false; }
      }
      return true;
    }

    /** A prefix of no family is the sign that none was added. */
    method GetFirstPrefix() returns (p: Prefix)
      requires Valid()
      ensures p.fam == INVALID <==> prefixes == []
      ensures prefixes != [] ==> p == prefixes[0] && Masked(p, lengths[0])
    {
      if |prefixes| >= 1 { return prefixes[0]; }
      return MakeBlankPrefix(INVALID);
    }
  }

  /** 10.0.0.0/8, whose mask is far from full length, counts as fully qualified. */
  lemma ShortMaskQualifies()
    ensures var p := MakeBlankPrefix(V4).(v4Addr := 0x0A00_0000, v4Mask := 0xFF00_0000, v6Mask := MaskWords(8, 4));
      PrefixParser.Masked(p, 8) && PrefixParser.HostPartZero(p, 8)
  {
    WordRangeIsPower();
    assert Pow2(24) == 0x100_0000 by {
      assert Pow2(8) == 256;
      PowersMultiply(8, 8);
      PowersMultiply(16, 8);
    }
  }
}
