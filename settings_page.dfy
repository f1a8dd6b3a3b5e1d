/**
 * The Settings page: the unsaved-changes flag, the number inputs (read with
 * JavaScript's `parseInt(...) || fallback`), clearing the chat session,
 * deleting every document one request at a time, and the full reset.
 */
module SettingsPage {
  import opened Wrappers
  import opened Text
  import Api
  import ChatPage
  import opened SettingsContext

  // ---------------------------------------------------------------------------
  // parseInt
  // ---------------------------------------------------------------------------

  /** A JavaScript number as `parseInt` can produce it: `NaN` or an integer (`-0` is `Int(0)`). */
  datatype Number = NaN | Int(value: int)

  /** The value of `c` as a digit in radixes up to 36; 36 for a character that is a digit in none. */
  function DigitValue(c: char): (v: nat)
    ensures v <= 36
    ensures v < 10 <==> IsDigit(c)
  {
    if '0' <= c <= '9' then c as int - '0' as int
    else if 'a' <= c <= 'z' then c as int - 'a' as int + 10
    else if 'A' <= c <= 'Z' then c as int - 'A' as int + 10
    else 36
  }

  /** The longest prefix of `s` made of digits in `radix`. */
  function DigitRun(s: string, radix: nat): (r: string)
    ensures |r| <= |s| && r == s[..|r|]
    ensures forall i :: 0 <= i < |r| ==> DigitValue(r[i]) < radix
    ensures |r| < |s| ==> DigitValue(s[|r|]) >= radix
  {
    if s != [] && DigitValue(s[0]) < radix then [s[0]] + DigitRun(s[1..], radix) else []
  }

  /** The value of a string of digits in `radix`, most significant first. */
  function RadixValue(s: string, radix: nat): nat
    requires forall i :: 0 <= i < |s| ==> DigitValue(s[i]) < radix
  {
    if s == [] then 0 else RadixValue(s[..|s| - 1], radix) * radix + DigitValue(s[|s| - 1])
  }

  /**
   * `parseInt(s)` without a radix argument: leading whitespace is skipped,
   * then one sign, then the unsigned part is read.
   */
  function ParseInt(s: string): Number {
    var t := TrimStart(s);
    if t != [] && t[0] == '-' then Negate(ParseUnsigned(t[1..]))
    else if t != [] && t[0] == '+' then ParseUnsigned(t[1..])
    else ParseUnsigned(t)
  }

  /** A `0x`/`0X` prefix selects radix 16; the longest run of digits that follows is read, and an empty run is `NaN`. */
  function ParseUnsigned(u: string): (r: Number)
    ensures r.Int? ==> r.value >= 0
  {
    var hex := |u| >= 2 && u[0] == '0' && (u[1] == 'x' || u[1] == 'X');
    var radix := if hex then 16 else 10;
    var run := DigitRun(if hex then u[2..] else u, radix);
    if run == [] then NaN else Int(RadixValue(run, radix))
  }

  function Negate(n: Number): Number {
    if n.NaN? then NaN else Int(-n.value)
  }

  /** In radix 10 the run of digits is read as a decimal number. */
  lemma {:induction false} DecimalRadixValue(s: string)
    requires AllDigits(s)
    ensures RadixValue(s, 10) == DigitsValue(s)
  {
    if s != [] {
      DecimalRadixValue(s[..|s| - 1]);
    }
  }

  /** The digit run of a string of digits followed by a non-digit is that string of digits. */
  lemma {:induction false} DigitRunStops(digits: string, rest: string)
    requires AllDigits(digits)
    requires rest == [] || DigitValue(rest[0]) >= 10
    ensures DigitRun(digits + rest, 10) == digits
  {
    if digits != [] {
      assert (digits + rest)[1..] == digits[1..] + rest;
      DigitRunStops(digits[1..], rest);
    } else {
      assert digits + rest == rest;
    }
  }

  /**
   * `parseInt` reads back the decimal rendering of any integer, and ignores
   * whatever follows it from the first character that is not a digit (a
   * decimal point, an exponent), except an `x` right after a lone `0`.
   */
  lemma ParseIntReadsRendering(n: int, rest: string)
    requires rest == [] || (DigitValue(rest[0]) >= 10 && rest[0] != 'x' && rest[0] != 'X')
    ensures ParseInt(IntToString(n) + rest) == Int(n)
  {
    var s := IntToString(n) + rest;
    if n < 0 {
      ParseIntReadsNegative(-n, rest, s);
    } else {
      ParseIntReadsNonNegative(n, rest, s);
    }
  }

  lemma ParseIntReadsNegative(m: nat, rest: string, s: string)
    requires rest == [] || (DigitValue(rest[0]) >= 10 && rest[0] != 'x' && rest[0] != 'X')
    requires s == "-" + NatToString(m) + rest
    ensures ParseInt(s) == Int(-(m as int))
  {
    assert s[1..] == NatToString(m) + rest;
    ParseIntUntrimmed(s);
    ParseUnsignedReadsRendering(m, rest);
  }

  lemma ParseIntReadsNonNegative(m: nat, rest: string, s: string)
    requires rest == [] || (DigitValue(rest[0]) >= 10 && rest[0] != 'x' && rest[0] != 'X')
    requires s == NatToString(m) + rest
    ensures ParseInt(s) == Int(m)
  {
    var digits := NatToString(m);
    assert s[0] == digits[0] && IsDigit(s[0]);
    ParseIntUntrimmed(s);
    ParseUnsignedReadsRendering(m, rest);
  }

  /** With no leading whitespace, `parseInt` reads the sign at once. */
  lemma ParseIntUntrimmed(s: string)
    requires s != [] && !IsSpace(s[0])
    ensures ParseInt(s) == (if s[0] == '-' then Negate(ParseUnsigned(s[1..]))
                            else if s[0] == '+' then ParseUnsigned(s[1..])
                            else ParseUnsigned(s))
  {
    TrimStartKeeps(s);
  }

  lemma ParseUnsignedReadsRendering(m: nat, rest: string)
    requires rest == [] || (DigitValue(rest[0]) >= 10 && rest[0] != 'x' && rest[0] != 'X')
    ensures ParseUnsigned(NatToString(m) + rest) == Int(m)
  {
    var digits := NatToString(m);
    var u := digits + rest;
    assert !(|u| >= 2 && u[0] == '0' && (u[1] == 'x' || u[1] == 'X')) by {
      if |u| >= 2 && u[0] == '0' {
        assert m == 0 && |digits| == 1;
        assert u[1] == rest[0];
      }
    }
    DigitRunStops(digits, rest);
    DecimalRadixValue(digits);
    NatToStringRoundTrip(m);
  }

  // ---------------------------------------------------------------------------
  // The number inputs
  // ---------------------------------------------------------------------------

  /** The three settings edited through a number input. */
  datatype NumberField = MaxResponseLengthField | ChunkSizeField | ChunkOverlapField {
    function Key(): SettingsContext.Key {
      match this
      case MaxResponseLengthField => MaxResponseLength
      case ChunkSizeField => ChunkSize
      case ChunkOverlapField => ChunkOverlap
    }

    /** The literal after `||` in the input's change handler. */
    function Fallback(): (f: int)
      ensures f != 0
      ensures Defaults()[Key().Name()] == Num(f)
    {
      match this
      case MaxResponseLengthField => 2048
      case ChunkSizeField => 1000
      case ChunkOverlapField => 200
    }
  }

  /** `parseInt(text) || fallback`: `NaN`, `0` and `-0` are falsy and give the fallback. */
  function NumberInput(text: string, fallback: int): (r: int)
    ensures r == fallback || (r != 0 && ParseInt(text) == Int(r))
    ensures (ParseInt(text).NaN? || ParseInt(text) == Int(0)) ==> r == fallback
    ensures ParseInt(text).Int? && ParseInt(text).value != 0 ==> r == ParseInt(text).value
  {
    match ParseInt(text)
    case NaN => fallback
    case Int(n) => if n == 0 then fallback else n
  }

  /** A number field never stores zero. */
  lemma NumberFieldNeverZero(field: NumberField, text: string)
    ensures NumberInput(text, field.Fallback()) != 0
  {
  }

  /** Typing the rendering of a non-zero integer stores that integer. */
  lemma NumberInputRoundTrip(n: int, fallback: int)
    requires n != 0
    ensures NumberInput(IntToString(n), fallback) == n
  {
    ParseIntReadsRendering(n, "");
    assert IntToString(n) + "" == IntToString(n);
  }

  // ---------------------------------------------------------------------------
  // Deleting every document
  // ---------------------------------------------------------------------------

  type Doc = Api.DocumentInfo

  /** The request a call sent, as a list of zero or one requests. */
  function Sent<T>(c: Api.Call<T>): seq<Api.Request> {
    if c.request.Some? then [c.request.value] else []
  }

  /** The delete call for each listed document, the `i`-th answered by `delete(i)`. */
  function DeleteCalls(docs: seq<Doc>, delete: nat -> Api.Response<Api.DeleteResponse>): (calls: seq<Api.Call<Api.DeleteResponse>>)
    ensures |calls| == |docs|
    ensures forall i :: 0 <= i < |docs| ==> calls[i] == Api.DeleteDocument(docs[i].fileId, delete(i))
  {
    seq(|docs|, i requires 0 <= i < |docs| => Api.DeleteDocument(docs[i].fileId, delete(i)))
  }

  /**
   * The calls awaited one after another: whether every one succeeded, and
   * the requests sent. The first failure throws out of the loop, so nothing
   * after it is sent.
   */
  function Sweep(calls: seq<Api.Call<Api.DeleteResponse>>): (r: (bool, seq<Api.Request>))
    ensures |r.1| <= |calls|
  {
    if calls == [] then (true, [])
    else
      var before := Sweep(calls[..|calls| - 1]);
      if !before.0 then before
      else (calls[|calls| - 1].result.Success?, before.1 + Sent(calls[|calls| - 1]))
  }

  predicate AllSucceed(calls: seq<Api.Call<Api.DeleteResponse>>) {
    forall i :: 0 <= i < |calls| ==> calls[i].result.Success?
  }

  /** The sweep gets through exactly when every call succeeds. */
  lemma {:induction false} SweepSucceedsIff(calls: seq<Api.Call<Api.DeleteResponse>>)
    ensures Sweep(calls).0 <==> AllSucceed(calls)
  {
    if calls != [] {
      var init := calls[..|calls| - 1];
      SweepSucceedsIff(init);
      assert forall i :: 0 <= i < |init| ==> init[i] == calls[i];
    }
  }

  /** When the sweep gets through, each call's request was sent, in order. */
  lemma {:induction false} SweepSendsAll(calls: seq<Api.Call<Api.DeleteResponse>>)
    requires Sweep(calls).0
    requires forall i :: 0 <= i < |calls| && calls[i].result.Success? ==> calls[i].request.Some?
    ensures |Sweep(calls).1| == |calls|
    ensures forall i :: 0 <= i < |calls| ==> calls[i].request.Some? && Sweep(calls).1[i] == calls[i].request.value
  {
    SweepSucceedsIff(calls);
    if calls != [] {
      var init := calls[..|calls| - 1];
      assert forall i :: 0 <= i < |init| ==> init[i] == calls[i];
      SweepSendsAll(init);
    }
  }

  /** One more call after a sweep that got through so far. */
  lemma SweepExtend(calls: seq<Api.Call<Api.DeleteResponse>>, i: nat)
    requires i < |calls| && Sweep(calls[..i]).0
    ensures Sweep(calls[..i + 1]) == (calls[i].result.Success?, Sweep(calls[..i]).1 + Sent(calls[i]))
  {
    assert calls[..i + 1][..i] == calls[..i];
  }

  /** After a failure the sweep stops: later calls change nothing. */
  lemma {:induction false} SweepStops(calls: seq<Api.Call<Api.DeleteResponse>>, more: seq<Api.Call<Api.DeleteResponse>>)
    requires !Sweep(calls).0
    ensures Sweep(calls + more) == Sweep(calls)
    decreases |more|
  {
    if more != [] {
      SweepStops(calls, more[..|more| - 1]);
      assert (calls + more)[..|calls + more| - 1] == calls + more[..|more| - 1];
    } else {
      assert calls + more == calls;
    }
  }

  /** The sweep over the listed documents: all deleted exactly when each delete call succeeds. */
  lemma DeleteEachSucceedsIff(docs: seq<Doc>, delete: nat -> Api.Response<Api.DeleteResponse>)
    ensures Sweep(DeleteCalls(docs, delete)).0 <==>
              forall i :: 0 <= i < |docs| ==> Api.DeleteDocument(docs[i].fileId, delete(i)).result.Success?
  {
    SweepSucceedsIff(DeleteCalls(docs, delete));
  }

  /** When all deletions succeed, one DELETE request was sent per document, in listing order. */
  lemma DeleteEachSendsInOrder(docs: seq<Doc>, delete: nat -> Api.Response<Api.DeleteResponse>)
    requires Sweep(DeleteCalls(docs, delete)).0
    ensures |Sweep(DeleteCalls(docs, delete)).1| == |docs|
    ensures forall i :: 0 <= i < |docs| ==>
              Sweep(DeleteCalls(docs, delete)).1[i] == Api.Request(Api.Delete, Api.BaseUrl + "/delete-docs/" + docs[i].fileId, Api.NoBody)
  {
    var calls := DeleteCalls(docs, delete);
    SweepSucceedsIff(calls);
    SweepSendsAll(calls);
  }

  /** How the bulk deletion ends: a toast reporting the count, or the error toast. */
  datatype Outcome = Removed(count: nat) | Failed

  /** `deleteAllDocuments`: list, then delete each listed document in turn. */
  function DeleteAll(listing: Api.Response<seq<Doc>>, delete: nat -> Api.Response<Api.DeleteResponse>): (Outcome, seq<Api.Request>) {
    var list := Api.ListDocuments(listing);
    if list.result.Failure? then (Failed, Sent(list))
    else
      var each := Sweep(DeleteCalls(list.result.value, delete));
      (if each.0 then Removed(|list.result.value|) else Failed, Sent(list) + each.1)
  }

  /** The bulk deletion reports success exactly when the listing and every deletion succeed, and then counts the listing. */
  lemma DeleteAllOutcome(listing: Api.Response<seq<Doc>>, delete: nat -> Api.Response<Api.DeleteResponse>)
    ensures DeleteAll(listing, delete).0.Removed? <==>
              Api.ListDocuments(listing).result.Success? &&
              AllSucceed(DeleteCalls(Api.ListDocuments(listing).result.value, delete))
    ensures DeleteAll(listing, delete).0.Removed? ==> DeleteAll(listing, delete).0.count == |Api.ListDocuments(listing).result.value|
    ensures listing.NotOk? ==> DeleteAll(listing, delete) == (Failed, [Api.Request(Api.Get, Api.BaseUrl + "/list-docs", Api.NoBody)])
  {
    var list := Api.ListDocuments(listing);
    if list.result.Success? {
      SweepSucceedsIff(DeleteCalls(list.result.value, delete));
    }
  }

  /** The loop of `deleteAllDocuments` over an already fetched listing. */
  method DeleteListed(docs: seq<Doc>, delete: nat -> Api.Response<Api.DeleteResponse>) returns (ok: bool, sent: seq<Api.Request>)
    ensures (ok, sent) == Sweep(DeleteCalls(docs, delete))
  {
    ghost var calls := DeleteCalls(docs, delete);
    sent := [];
    var i := 0;
    while i < |docs|
      invariant 0 <= i <= |docs|
      invariant (true, sent) == Sweep(calls[..i])
    {
      var call := Api.DeleteDocument(docs[i].fileId, delete(i));
      assert call == calls[i];
      SweepExtend(calls, i);
      sent := sent + Sent(call);
      if call.result.Failure? {
        SweepStops(calls[..i + 1], calls[i + 1..]);
        assert calls[..i + 1] + calls[i + 1..] == calls;
        return false, sent;
      }
      i := i + 1;
    }
    assert calls[..i] == calls;
    return true, sent;
  }

  /** `deleteAllDocuments` as the page runs it. */
  method DeleteAllDocuments(listing: Api.Response<seq<Doc>>, delete: nat -> Api.Response<Api.DeleteResponse>)
    returns (outcome: Outcome, sent: seq<Api.Request>)
    ensures (outcome, sent) == DeleteAll(listing, delete)
  {
    var list := Api.ListDocuments(listing);
    if list.result.Failure? {
      return Failed, Sent(list);
    }
    var ok, deletes := DeleteListed(list.result.value, delete);
    outcome := if ok then Removed(|list.result.value|) else Failed;
    sent := Sent(list) + deletes;
  }

  // ---------------------------------------------------------------------------
  // The page
  // ---------------------------------------------------------------------------

  class SettingsPage {
    const store: SettingsStore
    var hasChanges: bool

    ghost predicate Valid()
      reads this, store, store.storage
    {
      store.Valid() && store.Persisted()
    }

    /** The save button is disabled while there is nothing unsaved. */
    predicate SaveDisabled()
      reads this
    {
      !hasChanges
    }

    constructor (store: SettingsStore)
      requires store.Valid() && store.Persisted()
      ensures this.store == store && !hasChanges
      ensures Valid()
    {
      this.store := store;
      hasChanges := false;
    }

    /** `handleUpdateSetting`: the update, then the flag. */
    method HandleUpdateSetting(key: Key, value: Value)
      requires Valid() && key.Admits(value)
      modifies this, store, store.storage
      ensures store.settings == Update(old(store.settings), key, value)
      ensures store.storage.items == old(store.storage.items)[SettingsKey := store.codec.stringify(store.settings)]
      ensures hasChanges && Valid()
    {
      store.UpdateSetting(key, value);
      hasChanges := true;
    }

    /** The change handler of a number input: `parseInt(value) || fallback`. */
    method HandleNumberInput(field: NumberField, text: string)
      requires Valid()
      modifies this, store, store.storage
      ensures store.settings == Update(old(store.settings), field.Key(), Num(NumberInput(text, field.Fallback())))
      ensures store.settings[field.Key().Name()] != Num(0)
      ensures hasChanges && Valid()
    {
      HandleUpdateSetting(field.Key(), Num(NumberInput(text, field.Fallback())));
    }

    /** `handleSave`: settings are already persisted, so saving only clears the flag. */
    method HandleSave()
      modifies this
      ensures !hasChanges && SaveDisabled()
    {
      hasChanges := false;
    }

    /** `handleReset`: defaults restored, and the flag set. */
    method HandleReset()
      requires Valid()
      modifies this, store, store.storage
      ensures store.settings == Defaults()
      ensures store.storage.items == old(store.storage.items)[SettingsKey := store.codec.stringify(Defaults())]
      ensures hasChanges && Valid()
    {
      store.ResetSettings();
      hasChanges := true;
    }

    /** `clearChatHistory`: only the session id is removed from storage. */
    method ClearChatHistory()
      requires Valid()
      modifies store.storage
      ensures store.storage.items == old(store.storage.items) - {ChatPage.SessionKey}
      ensures store.storage.GetItem(ChatPage.SessionKey).None?
      ensures Valid()
    {
      store.storage.RemoveItem(ChatPage.SessionKey);
      assert ChatPage.SessionKey != SettingsKey by {
        assert ChatPage.SessionKey[6] != SettingsKey[6];
      }
    }

    /** `resetAllSettings`: the session id removed, defaults restored, the flag cleared. */
    method ResetAllSettings()
      requires Valid()
      modifies this, store, store.storage
      ensures store.settings == Defaults()
      ensures store.storage.items == (old(store.storage.items) - {ChatPage.SessionKey})[SettingsKey := store.codec.stringify(Defaults())]
      ensures !hasChanges && Valid()
    {
      ClearChatHistory();
      store.ResetSettings();
      hasChanges := false;
    }
  }
}
