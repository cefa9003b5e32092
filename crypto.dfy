/**
 * The `Crypto` service: an AES context that becomes ready once a non-empty
 * key has been supplied, and `encrypt`/`decrypt`, which first take an
 * optional override key and then refuse to work on a context that is still
 * not ready. The AES block functions are not modelled: they are parameters.
 */
module CryptoService {
  import opened ArduinoString

  /** The fixed initialisation vector handed to every `AES_init_ctx_iv`. */
  const Iv: string := "1234567890ABCDEF1234567890ABCDEF"

  /** The message `encrypt` and `decrypt` throw on a context that is not ready. */
  const NotInitialized: string := "Crypto context not initialized"

  /** The terminating zero of a C string. */
  const Nul: char := '\0'

  /** What an `AES_ctx` holds, as far as the service can tell: nothing yet, or a key and an IV. */
  datatype AesCtx = Blank | Keyed(key: string, iv: string)

  /** The fields of the service: the `initialized` flag and the context. */
  datatype CryptoState = CryptoState(initialized: bool, ctx: AesCtx)

  /** A call that either answers a value or throws a message. */
  datatype Result<T> = Success(value: T) | Failure(error: string)

  datatype Option<T> = None | Some(value: T)

  // ---------------------------------------------------------------------
  // The readiness state machine
  // ---------------------------------------------------------------------

  /**
   * `initCtx(key)`: a non-empty key (a `String` compared with `nullptr` is
   * unequal exactly when it is not empty) keys the context with the fixed IV
   * and sets the flag; an empty key changes nothing.
   */
  function AfterInit(s: CryptoState, key: string): CryptoState
  {
    if key != "" then CryptoState(true, Keyed(key, Iv)) else s
  }

  /** The constructor: a fresh context, the flag cleared, then `initCtx(key)`. */
  function Initial(key: string): CryptoState
  {
    AfterInit(CryptoState(false, Blank), key)
  }

  /** The state after `initCtx` has run with each of `keys` in turn. */
  function Run(s: CryptoState, keys: seq<string>): CryptoState
    decreases |keys|
  {
    if keys == [] then s else Run(AfterInit(s, keys[0]), keys[1..])
  }

  /** The last non-empty key of `keys`, if there is one. */
  function LastKey(keys: seq<string>): Option<string>
    decreases |keys|
  {
    if keys == [] then None
    else if keys[|keys| - 1] != "" then Some(keys[|keys| - 1])
    else LastKey(keys[..|keys| - 1])
  }

  /** A service constructed with a key is ready exactly when the key is not empty, and then holds it. */
  lemma InitialReadiness(key: string)
    ensures Initial(key).initialized <==> key != ""
    ensures key != "" ==> Initial(key).ctx == Keyed(key, Iv)
    ensures key == "" ==> Initial(key).ctx == Blank
  {
  }

  /** `initCtx` with an empty key leaves flag and context as they were; with another key, it installs it. */
  lemma InitCtxEffect(s: CryptoState, key: string)
    ensures key == "" ==> AfterInit(s, key) == s
    ensures key != "" ==> AfterInit(s, key).initialized && AfterInit(s, key).ctx == Keyed(key, Iv)
  {
  }

  /** Running `initCtx` on `keys` and then on `more` is running it on both in order. */
  lemma {:induction false} RunAppend(s: CryptoState, keys: seq<string>, more: seq<string>)
    ensures Run(s, keys + more) == Run(Run(s, keys), more)
    decreases |keys|
  {
    if keys == [] {
      assert keys + more == more;
    } else {
      assert (keys + more)[1..] == keys[1..] + more;
      RunAppend(AfterInit(s, keys[0]), keys[1..], more);
    }
  }

  /** Readiness never goes away: nothing but the constructor clears the flag. */
  lemma {:induction false} ReadyIsMonotone(s: CryptoState, keys: seq<string>)
    requires s.initialized
    ensures Run(s, keys).initialized
    decreases |keys|
  {
    if keys != [] {
      ReadyIsMonotone(AfterInit(s, keys[0]), keys[1..]);
    }
  }

  /** After a series of `initCtx` calls the service is ready exactly when it was, or some key was not empty. */
  lemma {:induction false} ReadyIff(s: CryptoState, keys: seq<string>)
    ensures Run(s, keys).initialized <==> s.initialized || exists i :: 0 <= i < |keys| && keys[i] != ""
    decreases |keys|
  {
    if keys != [] {
      ReadyIff(AfterInit(s, keys[0]), keys[1..]);
      if keys[0] != "" {
        ReadyIsMonotone(AfterInit(s, keys[0]), keys[1..]);
      }
      assert forall i :: 1 <= i < |keys| ==> keys[i] == keys[1..][i - 1];
      assert forall i :: 0 <= i < |keys[1..]| ==> keys[1..][i] == keys[i + 1];
    }
  }

  /** The active key is the last non-empty key supplied; with none, nothing changed. */
  lemma {:induction false} ActiveKeyIsLast(s: CryptoState, keys: seq<string>)
    ensures LastKey(keys).None? ==> Run(s, keys) == s
    ensures LastKey(keys).Some? ==> Run(s, keys) == CryptoState(true, Keyed(LastKey(keys).value, Iv))
    decreases |keys|
  {
    if keys != [] {
      var init, last := keys[..|keys| - 1], keys[|keys| - 1];
      assert keys == init + [last];
      RunAppend(s, init, [last]);
      ActiveKeyIsLast(s, init);
      assert Run(Run(s, init), [last]) == AfterInit(Run(s, init), last);
    }
  }

  // ---------------------------------------------------------------------
  // The guard of encrypt and decrypt
  // ---------------------------------------------------------------------

  /**
   * The start of `encrypt` and `decrypt`: `initCtx(key)` with the override
   * key, then the context to use, or the message thrown when the service is
   * still not ready.
   */
  function Guard(s: CryptoState, key: string): Result<AesCtx>
  {
    var t := AfterInit(s, key);
    if t.initialized then Success(t.ctx) else Failure(NotInitialized)
  }

  /** The guard throws exactly when the service is not ready after taking the override key. */
  lemma GuardThrowsIffNotReady(s: CryptoState, key: string)
    ensures Guard(s, key).Failure? <==> !s.initialized && key == ""
    ensures Guard(s, key).Failure? ==> Guard(s, key).error == NotInitialized
    ensures Guard(s, key).Success? ==> Guard(s, key).value == AfterInit(s, key).ctx
  {
  }

  /** After a call with a non-empty override key, every later call passes the guard, even without a key. */
  lemma OverrideKeepsReady(s: CryptoState, key: string, later: seq<string>, next: string)
    requires key != ""
    ensures Guard(Run(AfterInit(s, key), later), next).Success?
  {
    ReadyIsMonotone(AfterInit(s, key), later);
  }

  // ---------------------------------------------------------------------
  // Staging the text for the block function
  // ---------------------------------------------------------------------

  /** `String(buf)`: the characters of a C string up to its first terminating zero. */
  function CString(buf: seq<char>): (r: string)
    ensures Nul !in r
  {
    var z := IndexOf(buf, Nul, 0);
    IndexOfFirst(buf, Nul, 0);
    if z < 0 then buf else buf[..z]
  }

  /**
   * The buffer of `encrypt` and `decrypt` as written: `length() + 1` zeroed
   * characters, then `toCharArray(buf, length())`, which copies at most
   * `length() - 1` characters before writing its terminating zero, and
   * nothing at all when the size is 0.
   */
  function StageBufferAsWritten(text: string): (buf: seq<char>)
    ensures |buf| == |text| + 1
  {
    if text == [] then [Nul] else text[..|text| - 1] + [Nul, Nul]
  }

  /** The buffer as intended: `toCharArray(buf, length() + 1)`, so the whole text and its zero. */
  function StageBuffer(text: string): (buf: seq<char>)
    ensures |buf| == |text| + 1
  {
    text + [Nul]
  }

  /** As written, the last character never reaches the block function: texts differing only there stage the same. */
  lemma StagingDropsLastChar(text: string, c: char, d: char)
    ensures StageBufferAsWritten(text + [c]) == StageBufferAsWritten(text + [d])
    ensures Nul !in text ==> CString(StageBufferAsWritten(text + [c])) == text
  {
    assert (text + [c])[..|text|] == text == (text + [d])[..|text|];
    if Nul !in text {
      var buf := StageBufferAsWritten(text + [c]);
      assert buf[..|text|] == text;
      IndexOfAfter(buf, Nul, 0, text);
    }
  }

  /** A concrete case: `"Hello World!"` is staged as `"Hello World"`. */
  lemma StagingExample()
    ensures CString(StageBufferAsWritten("Hello World!")) == "Hello World"
  {
    StagingDropsLastChar("Hello World", '!', '!');
  }

  /** As intended, a text without zeros is read back whole from its buffer. */
  lemma StageBufferRoundTrip(text: string)
    requires Nul !in text
    ensures CString(StageBuffer(text)) == text
  {
    var buf := StageBuffer(text);
    assert buf[..|text|] == text;
    IndexOfAfter(buf, Nul, 0, text);
  }

  /**
   * `encrypt`/`decrypt` on values: the guard, then the text staged as written
   * (without its last character) run through the block function `block` (`AES_ECB_encrypt` or `AES_ECB_decrypt`) and cut
   * at its first zero.
   */
  function Transform(s: CryptoState, key: string, text: string, block: (AesCtx, seq<char>) -> seq<char>): Result<string>
  {
    match Guard(s, key)
    case Failure(e) => Failure(e)
    case Success(ctx) => Success(CString(block(ctx, StageBufferAsWritten(text))))
  }

  /** `encrypt`/`decrypt` throw exactly when the guard does, and otherwise answer a string without zeros. */
  lemma TransformOutcome(s: CryptoState, key: string, text: string, block: (AesCtx, seq<char>) -> seq<char>)
    ensures Transform(s, key, text, block).Failure? <==> !AfterInit(s, key).initialized
    ensures Transform(s, key, text, block).Failure? ==> Transform(s, key, text, block).error == NotInitialized
    ensures Transform(s, key, text, block).Success? ==>
      Transform(s, key, text, block).value == CString(block(AfterInit(s, key).ctx, StageBufferAsWritten(text))) &&
      Nul !in Transform(s, key, text, block).value
  {
  }

  // ---------------------------------------------------------------------
  // The class
  // ---------------------------------------------------------------------

  class Crypto {
    /** Whether the context has been keyed. */
    var initialized: bool
    /** The AES context. */
    var ctx: AesCtx

    /** The fields as a value. */
    ghost function Current(): CryptoState
      reads this
    {
      CryptoState(initialized, ctx)
    }

    /** `Crypto(key)`: not ready, a fresh context, then `initCtx(key)`. */
    constructor (key: string)
      ensures Current() == Initial(key)
    {
      initialized := false;
      ctx := Blank;
      new;
      InitCtx(key);
    }

    /** `initCtx(key)`. */
    method InitCtx(key: string)
      modifies this
      ensures Current() == AfterInit(old(Current()), key)
    {
      if key != "" {
        ctx := Keyed(key, Iv);
        initialized := true;
      }
    }

    /** `encrypt(plainText, key)`, with `AES_ECB_encrypt` as the parameter `encryptBlock`. */
    method Encrypt(plainText: string, key: string, encryptBlock: (AesCtx, seq<char>) -> seq<char>) returns (r: Result<string>)
      modifies this
      ensures Current() == AfterInit(old(Current()), key)
      ensures r == Transform(old(Current()), key, plainText, encryptBlock)
    {
      InitCtx(key);
      if !initialized {
        return Failure(NotInitialized);
      }
      var textChar := StageBufferAsWritten(plainText);
      textChar := encryptBlock(ctx, textChar);
      r := Success(CString(textChar));
    }

    /** `decrypt(cipherText, key)`, with `AES_ECB_decrypt` as the parameter `decryptBlock`. */
    method Decrypt(cipherText: string, key: string, decryptBlock: (AesCtx, seq<char>) -> seq<char>) returns (r: Result<string>)
      modifies this
      ensures Current() == AfterInit(old(Current()), key)
      ensures r == Transform(old(Current()), key, cipherText, decryptBlock)
    {
      InitCtx(key);
      if !initialized {
        return Failure(NotInitialized);
      }
      var textChar := StageBufferAsWritten(cipherText);
      textChar := decryptBlock(ctx, textChar);
      r := Success(CString(textChar));
    }

    /** `isReady`: the flag, with nothing changed. */
    method IsReady() returns (ready: bool)
      ensures ready == initialized
    {
      ready := initialized;
    }
  }
}
