/** Decoding the calldata of a router (internal/transactionanalysis/service.go, parseTHORChainCall,
    parseRouterDeposit).  The encoding is that of the Solidity Contract ABI Specification, sections
    "Formal Specification of the Encoding" and "Use of Dynamic Types".

    Bytes are characters below 256, as in a Go string. */
module RouterCall {
  import opened Wrappers

  predicate Bytes(s: string) {
    forall i :: 0 <= i < |s| ==> s[i] as int < 256
  }

  // ---------- hexadecimal ----------

  function HexDigit(n: nat): char
    requires n < 16
  {
    if n < 10 then ('0' as int + n) as char else ('a' as int + n - 10) as char
  }

  function HexValue(c: char): Option<nat> {
    if '0' <= c <= '9' then Some(c as nat - '0' as nat)
    else if 'a' <= c <= 'f' then Some(c as nat - 'a' as nat + 10)
    else if 'A' <= c <= 'F' then Some(c as nat - 'A' as nat + 10)
    else None
  }

  function EncodeHex(s: string): (r: string)
    requires Bytes(s)
    ensures |r| == 2 * |s|
  {
    if s == [] then [] else [HexDigit(s[0] as nat / 16), HexDigit(s[0] as nat % 16)] + EncodeHex(s[1..])
  }

  /** Fails on an odd number of digits and on anything that is not a digit. */
  function DecodeHex(s: string): (r: Option<string>)
    ensures r.Some? ==> Bytes(r.value) && |s| == 2 * |r.value|
    decreases |s|
  {
    if s == [] then Some([])
    else if |s| == 1 then None
    else
      var hi, lo, rest := HexValue(s[0]), HexValue(s[1]), DecodeHex(s[2..]);
      if hi.None? || lo.None? || rest.None? then None
      else Some([(16 * HexNibble(s[0]) + HexNibble(s[1])) as char] + rest.value)
  }

  function HexNibble(c: char): (n: nat)
    ensures n < 16
  {
    if HexValue(c).Some? then HexValue(c).value else 0
  }

  lemma DigitValue(n: nat)
    requires n < 16
    ensures HexValue(HexDigit(n)) == Some(n)
  {
  }

  lemma {:induction false} HexRoundTrip(s: string)
    requires Bytes(s)
    ensures DecodeHex(EncodeHex(s)) == Some(s)
  {
    if s != [] {
      HexRoundTrip(s[1..]);
      var b := s[0] as nat;
      DigitValue(b / 16);
      DigitValue(b % 16);
      assert EncodeHex(s)[2..] == EncodeHex(s[1..]);
      assert s == [s[0]] + s[1..];
    }
  }

  /** Capital digits are read as well. */
  lemma {:induction false} HexInAnyCase(text: string, s: string)
    requires Bytes(s) && |text| == 2 * |s|
    requires forall i :: 0 <= i < |text| ==>
      text[i] == EncodeHex(s)[i] || (text[i] as int + 32 == EncodeHex(s)[i] as int && 'A' <= text[i] <= 'Z')
    ensures DecodeHex(text) == Some(s)
  {
    if s != [] {
      var code := EncodeHex(s);
      assert code[2..] == EncodeHex(s[1..]);
      forall i | 0 <= i < |text[2..]|
        ensures text[2..][i] == code[2..][i]
          || (text[2..][i] as int + 32 == code[2..][i] as int && 'A' <= text[2..][i] <= 'Z')
      {
        assert text[2..][i] == text[i + 2] && code[2..][i] == code[i + 2];
      }
      HexInAnyCase(text[2..], s[1..]);
      var b := s[0] as nat;
      CapitalDigit(b / 16, text[0]);
      CapitalDigit(b % 16, text[1]);
      assert s == [s[0]] + s[1..];
    }
  }

  lemma CapitalDigit(n: nat, c: char)
    requires n < 16 && (c == HexDigit(n) || (c as int + 32 == HexDigit(n) as int && 'A' <= c <= 'Z'))
    ensures HexValue(c) == Some(n)
  {
  }

  // ---------- words ----------

  function Big(s: string): nat {
    if s == [] then 0 else 256 * Big(s[..|s| - 1]) + s[|s| - 1] as nat
  }

  /** The last `width` bytes of a number, most significant first. */
  function Small(n: nat, width: nat): (r: string)
    ensures |r| == width && Bytes(r)
  {
    if width == 0 then [] else Small(n / 256, width - 1) + [(n % 256) as char]
  }

  function Power(width: nat): (p: nat)
    ensures p > 0
  {
    if width == 0 then 1 else 256 * Power(width - 1)
  }

  lemma {:induction false} SmallBig(n: nat, width: nat)
    requires n < Power(width)
    ensures Big(Small(n, width)) == n
  {
    if width > 0 {
      SmallBig(n / 256, width - 1);
      assert Small(n, width)[..width - 1] == Small(n / 256, width - 1);
    }
  }

  const WORD: nat := 32

  const INT64_LIMIT: nat := 0x8000000000000000

  function Slot(raw: string, index: nat): string
    requires (index + 1) * WORD <= |raw|
  {
    raw[index * WORD..(index + 1) * WORD]
  }

  /** The dynamic string whose offset stands in argument three: offset and length must be 64-bit
      integers, and the string must lie within the data. */
  function Dynamic(raw: string): (r: Option<string>)
    requires |raw| >= 4 * WORD
  {
    var offset := Big(Slot(raw, 3));
    if offset >= INT64_LIMIT || offset > |raw| - WORD then None
    else
      var length := Big(raw[offset..offset + WORD]);
      var start := offset + WORD;
      if length >= INT64_LIMIT || length > |raw| - start then None else Some(raw[start..start + length])
  }

  // ---------- text ----------

  function Lower(c: char): char { if 'A' <= c <= 'Z' then (c as int + 32) as char else c }

  function Upper(c: char): char { if 'a' <= c <= 'z' then (c as int - 32) as char else c }

  function ToLower(s: string): string { seq(|s|, i requires 0 <= i < |s| => Lower(s[i])) }

  function ToUpper(s: string): string { seq(|s|, i requires 0 <= i < |s| => Upper(s[i])) }

  predicate IsSpace(c: char) { c == ' ' || '\t' <= c <= '\r' }

  function TrimLeft(s: string): string { if s != [] && IsSpace(s[0]) then TrimLeft(s[1..]) else s }

  function TrimRight(s: string): string { if s != [] && IsSpace(s[|s| - 1]) then TrimRight(s[..|s| - 1]) else s }

  function TrimSpace(s: string): string { TrimRight(TrimLeft(s)) }

  /** The parts between colons; there is always one. */
  function SplitColon(s: string): (r: seq<string>)
    ensures r != []
  {
    if s == [] then [[]]
    else
      var rest := SplitColon(s[1..]);
      if s[0] == ':' then [[]] + rest else [[s[0]] + rest[0]] + rest[1..]
  }

  function HasPrefix(s: string, prefix: string): bool { prefix <= s }

  // ---------- the calls ----------

  const ZERO_ADDRESS: string := "0x0000000000000000000000000000000000000000"

  const TRANSFER_OUT: string := "574da717"

  const DEPOSIT_WITH_EXPIRY: string := "44bc937b"

  datatype Action = VaultMigration | ProtocolOutbound | CrossChainSwap | Refund | ProtocolInternal | RouterInbound

  datatype Call = Call(action: Action, memo: string, destination: string, vault: string, asset: string, amount: nat)

  /** The argument bytes of a call with that selector. */
  function Arguments(input: string, selector: string): Option<string> {
    if |input| < 10 || ToLower(input[2..10]) != ToLower(selector) then None
    else DecodeHex(if HasPrefix(input[10..], "0x") then input[12..] else input[10..])
  }

  function AddressAt(raw: string, index: nat): string
    requires (index + 1) * WORD <= |raw| && Bytes(raw)
  {
    var slot := Slot(raw, index);
    assert Bytes(slot[12..]) by {
      assert forall i :: 0 <= i < 20 ==> slot[12..][i] == raw[index * WORD + 12 + i];
    }
    "0x" + EncodeHex(slot[12..])
  }

  function ActionOf(memo: string): Action {
    var action := ToUpper(SplitColon(memo)[0]);
    if action == "MIGRATE" then VaultMigration
    else if action == "OUT" then ProtocolOutbound
    else if action == "SWAP" then CrossChainSwap
    else if action == "REFUND" then Refund
    else ProtocolInternal
  }

  /** transferOut(address,address,uint256,string). */
  function ParseTransferOut(succeeded: bool, recipient: string, router: string, input: string): Option<Call> {
    if !succeeded || recipient != router then None
    else
      var raw := Arguments(input, TRANSFER_OUT);
      if raw.None? || |raw.value| < 4 * WORD then None
      else
        var memo := Dynamic(raw.value);
        if memo.None? then None
        else
          var asset := AddressAt(raw.value, 1);
          Some(Call(ActionOf(memo.value), memo.value, AddressAt(raw.value, 0), "",
                    if asset == ZERO_ADDRESS then "ETH" else asset, Big(Slot(raw.value, 2))))
  }

  /** The bitcoin address a swap memo names, if it names one. */
  function BitcoinDestination(memo: string): Option<string> {
    var parts := SplitColon(memo);
    if |parts| < 3 || ToUpper(TrimSpace(parts[0])) != "=" then None
    else if ToLower(TrimSpace(parts[1])) !in ["b", "btc", "btc.btc"] then None
    else
      var destination := ToLower(TrimSpace(parts[2]));
      if !HasPrefix(destination, "bc1") || |destination| < 14 || |destination| > 90 then None else Some(destination)
  }

  /** depositWithExpiry(address,address,uint256,string,uint256). */
  function ParseDeposit(succeeded: bool, recipient: string, router: string, input: string): Option<Call> {
    if !succeeded || recipient != router then None
    else
      var raw := Arguments(input, DEPOSIT_WITH_EXPIRY);
      if raw.None? || |raw.value| < 5 * WORD then None
      else
        var memo := Dynamic(raw.value);
        if memo.None? then None
        else
          var destination := BitcoinDestination(memo.value);
          if destination.None? || AddressAt(raw.value, 1) != ZERO_ADDRESS then None
          else Some(Call(RouterInbound, memo.value, destination.value, AddressAt(raw.value, 0), "BTC.BTC",
              Big(Slot(raw.value, 2))))
  }

  // ---------- the standard encoding ----------

  function Zeros(n: nat): (r: string)
    ensures |r| == n && Bytes(r)
  {
    seq(n, _ => 0 as char)
  }

  /** Right-padded to whole words. */
  function Padding(n: nat): nat { (WORD - n % WORD) % WORD }

  predicate IsAddress(a: string) { |a| == 20 && Bytes(a) }

  function AddressWord(a: string): (r: string)
    requires IsAddress(a)
    ensures |r| == WORD && Bytes(r)
  {
    Zeros(12) + a
  }

  function StringTail(memo: string): (r: string)
    requires Bytes(memo)
    ensures Bytes(r)
  {
    Small(|memo|, WORD) + memo + Zeros(Padding(|memo|))
  }

  /** Head of static words, with the offset of the string in place three, then the string. */
  function EncodeArguments(x: string, y: string, amount: nat, memo: string, more: string): (r: string)
    requires IsAddress(x) && IsAddress(y) && Bytes(memo) && Bytes(more)
    ensures Bytes(r)
  {
    AddressWord(x) + AddressWord(y) + Small(amount, WORD) + Small(4 * WORD + |more|, WORD) + more + StringTail(memo)
  }

  function EncodeCall(selector: string, arguments: string): string
    requires Bytes(arguments)
  {
    "0x" + selector + EncodeHex(arguments)
  }

  // ---------- round trips ----------

  lemma {:induction false} PowerGrows(m: nat, n: nat)
    requires m <= n
    ensures Power(m) <= Power(n)
  {
    if m < n {
      PowerGrows(m, n - 1);
    }
  }

  lemma EightBytes()
    ensures Power(8) >= INT64_LIMIT
  {
    assert Power(8) == 256 * Power(7) && Power(7) == 256 * Power(6) && Power(6) == 256 * Power(5) &&
        Power(5) == 256 * Power(4);
    assert Power(4) == 256 * Power(3) && Power(3) == 256 * Power(2) && Power(2) == 256 * Power(1) &&
        Power(1) == 256 * Power(0);
  }

  lemma SmallLength(n: nat)
    requires n < INT64_LIMIT
    ensures n < Power(WORD)
  {
    EightBytes();
    PowerGrows(8, WORD);
  }

  /** The decoder finds the words and the string the encoder put there. */
  lemma ArgumentsRoundTrip(x: string, y: string, amount: nat, memo: string, more: string)
    requires IsAddress(x) && IsAddress(y) && Bytes(memo) && Bytes(more)
    requires amount < Power(WORD) && 4 * WORD + |more| < INT64_LIMIT && |memo| < INT64_LIMIT
    ensures
      var raw := EncodeArguments(x, y, amount, memo, more);
      && |raw| >= 5 * WORD + |more|
      && Slot(raw, 0) == AddressWord(x) && Slot(raw, 1) == AddressWord(y)
      && Big(Slot(raw, 2)) == amount
      && Dynamic(raw) == Some(memo)
  {
    hide Small, Big, Power;
    var raw := EncodeArguments(x, y, amount, memo, more);
    var offset := 4 * WORD + |more|;
    SmallLength(offset);
    SmallLength(|memo|);
    SmallBig(amount, WORD);
    SmallBig(offset, WORD);
    SmallBig(|memo|, WORD);
    assert Slot(raw, 0) == AddressWord(x);
    assert Slot(raw, 1) == AddressWord(y);
    assert Slot(raw, 2) == Small(amount, WORD);
    assert Slot(raw, 3) == Small(offset, WORD);
    assert raw[offset..offset + WORD] == Small(|memo|, WORD);
    assert raw[offset + WORD..offset + WORD + |memo|] == memo;
  }

  lemma SelectorRead(selector: string, arguments: string)
    requires |selector| == 8 && Bytes(arguments)
    ensures Arguments(EncodeCall(selector, arguments), selector) == Some(arguments)
  {
    hide ToLower, DecodeHex, EncodeHex;
    var input := EncodeCall(selector, arguments);
    assert input[2..10] == selector;
    assert input[10..] == EncodeHex(arguments);
    NoPrefix(arguments);
    HexRoundTrip(arguments);
  }

  lemma NoPrefix(arguments: string)
    requires Bytes(arguments)
    ensures !HasPrefix(EncodeHex(arguments), "0x")
  {
    if arguments != [] {
      var c := EncodeHex(arguments)[1];
      DigitValue(arguments[0] as nat % 16);
      assert HexValue(c).Some?;
      assert "0x"[1] == 'x' && HexValue('x').None?;
    }
  }

  lemma AddressRead(raw: string, index: nat, a: string)
    requires (index + 1) * WORD <= |raw| && Bytes(raw) && IsAddress(a) && Slot(raw, index) == AddressWord(a)
    ensures AddressAt(raw, index) == "0x" + EncodeHex(a)
  {
    assert AddressWord(a)[12..] == a;
  }

  /** Decoding an encoded transferOut gives back its destination, asset, amount and memo, for a memo
      of any accepted length. */
  lemma TransferOutRoundTrip(router: string, destination: string, asset: string, amount: nat, memo: string)
    requires IsAddress(destination) && IsAddress(asset) && amount < Power(WORD) && Bytes(memo) && |memo| < INT64_LIMIT
    ensures
      var shown := "0x" + EncodeHex(asset);
      ParseTransferOut(true, router, router,
          EncodeCall("574da717", EncodeArguments(destination, asset, amount, memo, "")))
      == Some(Call(ActionOf(memo), memo, "0x" + EncodeHex(destination), "",
                   if shown == ZERO_ADDRESS then "ETH" else shown, amount))
  {
    hide ActionOf, Dynamic, EncodeHex, Big, Power, Arguments, EncodeCall, EncodeArguments;
    var raw := EncodeArguments(destination, asset, amount, memo, "");
    ArgumentsRoundTrip(destination, asset, amount, memo, "");
    SelectorRead(TRANSFER_OUT, raw);
    AddressRead(raw, 0, destination);
    AddressRead(raw, 1, asset);
  }

  /** Decoding an encoded depositWithExpiry gives back its vault, amount and memo exactly when the
      asset is the zero address and the memo names a bitcoin address, and nothing otherwise. */
  lemma DepositRoundTrip(router: string, vault: string, asset: string, amount: nat, memo: string, expiry: nat)
    requires IsAddress(vault) && IsAddress(asset) && amount < Power(WORD) && Bytes(memo) && |memo| < INT64_LIMIT
    ensures
      var destination := BitcoinDestination(memo);
      ParseDeposit(true, router, router,
          EncodeCall("44bc937b", EncodeArguments(vault, asset, amount, memo, Small(expiry, WORD))))
      == if destination.None? || "0x" + EncodeHex(asset) != ZERO_ADDRESS then None
         else Some(Call(RouterInbound, memo, destination.value, "0x" + EncodeHex(vault), "BTC.BTC", amount))
  {
    hide BitcoinDestination, Dynamic, EncodeHex, Big, Power, Arguments, EncodeCall, EncodeArguments, Small;
    var raw := EncodeArguments(vault, asset, amount, memo, Small(expiry, WORD));
    ArgumentsRoundTrip(vault, asset, amount, memo, Small(expiry, WORD));
    SelectorRead(DEPOSIT_WITH_EXPIRY, raw);
    AddressRead(raw, 0, vault);
    AddressRead(raw, 1, asset);
  }

  // ---------- case and space ----------

  /** A letter and its capital, 32 places before it, are one letter; nothing else becomes one. */
  lemma CaseSpelled(c: char, letter: char)
    requires 'a' <= letter <= 'z'
    ensures Lower(c) == letter <==> c == letter || c as int == letter as int - 32
    ensures Upper(c) as int == letter as int - 32 <==> c == letter || c as int == letter as int - 32
    ensures !('A' <= c <= 'Z') ==> Lower(c) == c
    ensures !('a' <= c <= 'z') ==> Upper(c) == c
  {
  }

  /** Space, tabulators, line and page breaks. */
  predicate Blank(s: string) {
    forall i :: 0 <= i < |s| ==> s[i] as int in {9, 10, 11, 12, 13, 32}
  }

  lemma {:induction false} TrimmedLeft(blank: string, s: string)
    requires Blank(blank) && (s != [] ==> !Blank([s[0]]))
    ensures TrimLeft(blank + s) == s
  {
    if blank == [] {
      assert blank + s == s;
      if s != [] {
        assert [s[0]][0] == s[0];
      }
    } else {
      assert (blank + s)[1..] == blank[1..] + s;
      TrimmedLeft(blank[1..], s);
    }
  }

  lemma {:induction false} TrimmedRight(s: string, blank: string)
    requires Blank(blank) && (s != [] ==> !Blank([s[|s| - 1]]))
    ensures TrimRight(s + blank) == s
  {
    if blank == [] {
      assert s + blank == s;
      if s != [] {
        assert [s[|s| - 1]][0] == s[|s| - 1];
      }
    } else {
      assert (s + blank)[..|s + blank| - 1] == s + blank[..|blank| - 1];
      TrimmedRight(s, blank[..|blank| - 1]);
    }
  }

  /** Blanks around a text are cut off, and nothing else. */
  lemma TrimSpelled(before: string, s: string, behind: string)
    requires Blank(before) && Blank(behind) && s != [] && !Blank([s[0]]) && !Blank([s[|s| - 1]])
    ensures TrimSpace(before + s + behind) == s
  {
    assert before + s + behind == before + (s + behind);
    TrimmedLeft(before, s + behind);
    TrimmedRight(s, behind);
  }

  // ---------- what memos say ----------

  lemma {:induction false} SplitFirst(word: string, rest: string)
    requires ':' !in word
    ensures SplitColon(word) == [word]
    ensures SplitColon(word + ":" + rest) == [word] + SplitColon(rest)
  {
    var memo := word + ":" + rest;
    if word == [] {
      assert memo[0] == ':' && memo[1..] == rest;
    } else {
      SplitFirst(word[1..], rest);
      assert memo[1..] == word[1..] + ":" + rest && memo[0] == word[0];
      assert word == [word[0]] + word[1..];
    }
  }

  /** The word before the first colon of an outbound memo, in any case, says what the call does. */
  lemma MemoNamesAction(word: string, rest: string)
    requires ':' !in word
    ensures forall memo :: memo in [word, word + ":" + rest] ==>
      && (ActionOf(memo) == VaultMigration <==> ToUpper(word) == "MIGRATE")
      && (ActionOf(memo) == ProtocolOutbound <==> ToUpper(word) == "OUT")
      && (ActionOf(memo) == CrossChainSwap <==> ToUpper(word) == "SWAP")
      && (ActionOf(memo) == Refund <==> ToUpper(word) == "REFUND")
      && (ActionOf(memo) == ProtocolInternal <==> ToUpper(word) !in ["MIGRATE", "OUT", "SWAP", "REFUND"])
  {
    SplitFirst(word, rest);
    hide SplitColon, ToUpper;
    assert "MIGRATE"[0] != "OUT"[0] && "MIGRATE"[0] != "SWAP"[0] && "MIGRATE"[0] != "REFUND"[0];
    assert "OUT"[0] != "SWAP"[0] && "OUT"[0] != "REFUND"[0] && "SWAP"[0] != "REFUND"[0];
  }

  /** An inbound memo names a bitcoin address exactly when its first three parts are the sign =, a name of
      bitcoin, and an address that begins with bc1 and has 14 to 90 characters, spaces and case aside. */
  lemma MemoNamesDestination(sign: string, asset: string, address: string, rest: string)
    requires ':' !in sign && ':' !in asset && ':' !in address
    ensures forall end :: end in ["", ":" + rest] ==>
      var shown := ToLower(TrimSpace(address));
      BitcoinDestination(sign + ":" + (asset + ":" + (address + end))) ==
        if && ToUpper(TrimSpace(sign)) == "="
           && (ToLower(TrimSpace(asset)) == "b" || ToLower(TrimSpace(asset)) == "btc"
               || ToLower(TrimSpace(asset)) == "btc.btc")
           && "bc1" <= shown && 14 <= |shown| <= 90
        then Some(shown) else None
  {
    SplitFirst(address, rest);
    assert address + "" == address && address + (":" + rest) == address + ":" + rest;
    forall end | end in ["", ":" + rest]
      ensures
        var parts := SplitColon(sign + ":" + (asset + ":" + (address + end)));
        |parts| >= 3 && parts[0] == sign && parts[1] == asset && parts[2] == address
    {
      SplitFirst(asset, address + end);
      SplitFirst(sign, asset + ":" + (address + end));
    }
    hide SplitColon, ToLower, ToUpper, TrimSpace;
  }

  lemma {:induction false} FewParts(memo: string)
    ensures |SplitColon(memo)| == 1 + multiset(memo)[':']
  {
    if memo != [] {
      FewParts(memo[1..]);
      assert memo == [memo[0]] + memo[1..];
    }
  }

  /** Without two colons it names none. */
  lemma ShortMemo(memo: string)
    requires multiset(memo)[':'] < 2
    ensures BitcoinDestination(memo).None?
  {
    FewParts(memo);
    hide SplitColon, ToLower, ToUpper, TrimSpace;
  }

  /** The argument data hold a string: its offset and its length are 64-bit integers, and both the length and the
      string lie within the data. */
  predicate HoldsString(raw: string)
    requires |raw| >= 4 * WORD
  {
    var offset := Big(Slot(raw, 3));
    && offset < INT64_LIMIT && offset + WORD <= |raw|
    && var length := Big(raw[offset..offset + WORD]);
       length < INT64_LIMIT && offset + WORD + length <= |raw|
  }

  /** The data of a call: hexadecimal after the selector, with or without another 0x. */
  lemma ArgumentsSpelled(input: string, selector: string, raw: string)
    ensures Arguments(input, selector) == Some(raw) <==>
      && |input| >= 10 && ToLower(input[2..10]) == ToLower(selector)
      && DecodeHex(if |input| >= 12 && input[10] == '0' && input[11] == 'x' then input[12..] else input[10..]) ==
           Some(raw)
  {
    hide ToLower, DecodeHex;
    if |input| >= 12 {
      assert input[10..][0] == input[10] && input[10..][1] == input[11];
    }
    assert "0x"[0] == '0' && "0x"[1] == 'x';
  }

  /** A call is read exactly if it succeeded, was made to the router, begins with its selector, and has data that
      hold four words, or five, and a string; a deposit also needs a memo with a destination and the zero
      address for its asset. */
  lemma CallsAreSelected(succeeded: bool, recipient: string, router: string, input: string)
    ensures
      var raw := Arguments(input, "574da717");
      ParseTransferOut(succeeded, recipient, router, input).Some? <==>
        succeeded && recipient == router && raw.Some? && |raw.value| >= 128 && HoldsString(raw.value)
    ensures
      var raw := Arguments(input, "44bc937b");
      ParseDeposit(succeeded, recipient, router, input).Some? <==>
        && succeeded && recipient == router && raw.Some? && |raw.value| >= 160 && HoldsString(raw.value)
        && BitcoinDestination(Dynamic(raw.value).value).Some? && AddressAt(raw.value, 1) == ZERO_ADDRESS
  {
    hide Arguments, BitcoinDestination, Big;
  }
}
