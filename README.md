# electrometer-lora-iot: the telemetry codec, the relay request and the crypto guard

The firmware moves electricity-meter readings from a node to a gateway over
LoRa and on to a cloud backend over HTTPS. This project models its core in
Dafny:

- **`SerializableData`** (`serializable_data.dfy`, module `Serializable`) is
  one `key=value` record. It is a datatype, because its two fields never
  change after construction. `getKey` and `getVal` are its destructors, and
  the default arguments of the constructor are the datatype's defaults.
  `toString` is `key + "=" + val`. `fromString` splits at the first `=`.
- **`LoraDTO`** (`lora_dto.dfy`, module `Lora`) is the radio payload: an
  array of records and the number of them in use.
  - `LoraDto.ToString` appends `key=val` and `&` in a loop. It is proved equal
    to `Join`: the records in order, one `&` between neighbours, none at the
    end.
  - `LoraDto.FromString` keeps the source's two loops: one counts the `&`,
    the other fills `amps + 1` array slots from a cursor. It is proved equal
    to `Parse`, a functional reading of the same loop.
  - The parsing loop has a quirk. When no `&` follows the last record,
    `indexOf` answers -1 and the cursor becomes 0 again. The loop ends there
    only because the slot bound `amps + 1` is reached (`SpareSlotRereads`
    shows the loop reading the text again when it has a spare slot).
  - The round trip holds for well-formed records: no key contains `=` or
    `&`, and no value contains `&`. It is proved from a layout of the records
    in the text (`LaidOut`) and a turn-by-turn reading of the loop (`Reads`).
- The **Arduino `String` operations** the codec is built from are in
  `arduino_string.dfy` (module `ArduinoString`). They follow the Arduino core:
  - `indexOf` answers a position or -1;
  - `substring` takes unsigned bounds, so a -1 right end is clamped to the
    length, a left end past the right end is swapped with it, and a left end
    at or past the length gives the empty string.
- **`RESTClient`** (`rest_client.dfy`, module `Rest`).
  - `FormGetRequestUrl` builds `endpoint + "?"` and then the records, joined
    by the same `Join`.
  - `RequestText` is the request `makeGETRequest` sends. It is proved equal to
    the rendering of an HTTP/1.1 request head with a GET request line (section
    3 of RFC 9112), a `Host` field (section 7.2 of RFC 9110) and
    `Connection: close`.
  - `MakeGetRequest` sends when the radio and the client are both connected.
    Otherwise it sends nothing, rejoins the network and answers 0.
  - The `WiFiHandler` is a class whose fields hold the network's answers
    (`accepts`, `status`, `printResult`) and record what was done (`client`,
    `sent`, `joins`). `sent` logs each request with the host of the client it
    went over.
- **`Crypto`** (`crypto.dfy`, module `CryptoService`) is the readiness state
  machine: an `initialized` flag and an AES context.
  - All three members (`initCtx`, the constructor, and the guard that
    `encrypt`/`decrypt` run first) are modelled, both on values (`AfterInit`,
    `Initial`, `Run`, `Guard`, `Transform`) and as a class whose methods are
    proved against those functions.
  - The AES block functions are parameters of `Encrypt` and `Decrypt`, and
    nothing is assumed about them.
  - A thrown message is a `Failure` result.

## Model

| member | source | states |
|---|---|---|
| `Serializable.FromString` | src/models/serializable_data.hpp:67-71 | When the text has a `=`, it is `key + "=" + val` and the key holds no `=`: the split is at the first `=`, and later ones stay in the value. Without a `=`, key and value are both the whole text. |
| `Serializable.FromStringOfToString` | src/models/serializable_data.hpp:59-71 | `fromString(toString(d)) == d` holds exactly when the key of `d` has no `=`. |
| `Serializable.FromStringOfSeparatorAlone` | src/models/serializable_data.hpp:67-71 | `fromString("=")` is the record with empty key and empty value, the same as the default constructor. |
| `Lora.ParseJoin` | src/models/lora_dto.hpp:48-67 | Round trip: parsing the `&`-joined serialization of well-formed records gives the same records, in order and the same number of them. |
| `Lora.ParseJoinTrailingSeparator` | src/models/lora_dto.hpp:56-62 | A trailing `&` after well-formed records adds no record: the cursor reaches the end of the text before the spare slot is used. |
| `Lora.ParseTrailingSeparator` | src/models/lora_dto.hpp:56-62 | `"a=1&"` parses to the single record `("a", "1")`. |
| `Lora.ParseEmptyValue` | src/models/lora_dto.hpp:57-63 | `"k="` parses to the single record `("k", "")`. |
| `Lora.ParseEmpty` | src/models/lora_dto.hpp:49-56 | The empty text parses to no records. |
| `Lora.ParseBound` | src/models/lora_dto.hpp:49-56 | Parsing never yields more records than one plus the number of `&` in the text. |
| `Lora.SpareSlotRereads` | src/models/lora_dto.hpp:56-64 | Read with one spare slot, `"k=v"` gives `("k","v")` twice: after a record with no `&` behind it the cursor is back at 0, and only the slot bound ends the loop. |
| `Lora.AmpCountJoin` | src/models/lora_dto.hpp:49-52 | For n ≥ 1 well-formed records, the serialization holds exactly n - 1 `&`, so the counting loop sizes the array to exactly n slots. |
| `Lora.JoinAppend` | src/models/lora_dto.hpp:94-99 | Appending a record to the list appends `&` and its `key=val` to the serialization, or only `key=val` when the list was empty. |
| `Lora.LaidOutReads` | src/models/lora_dto.hpp:56-65 | Started at the first of a run of laid-out records, the loop reads them back one per turn and then stops. It stops because the cursor leaves the text (trailing `&`) or because the slots run out (no trailing `&`). |
| `Lora.StepReadsRecord` | src/models/lora_dto.hpp:57-62 | One turn at the start of a well-formed record yields that record. The cursor then moves past the `&` that follows, or to 0 when the record ends the text. |
| `Lora.LoraDto.constructor` | src/models/lora_dto.hpp:37-40 | The array and the count are stored as given. |
| `Lora.LoraDto.FromString` | src/models/lora_dto.hpp:48-67 | Allocates `amps + 1` slots and fills them in place. The records in use are exactly `Parse(data)`, at most `amps + 1` of them, and none for the empty text. |
| `Lora.LoraDto.CountSeparators` | src/models/lora_dto.hpp:49-52 | The counting loop answers the number of `&` in the text. |
| `Lora.LoraDto.ReadRecord` | src/models/lora_dto.hpp:57-64 | One turn of the filling loop: slot `size` receives the record read at the cursor, no other slot changes, and the new cursor is returned. |
| `Lora.LoraDto.ScanRecord` | src/models/lora_dto.hpp:57-62 | The two `indexOf` and two `substring` calls of one turn compute the loop's turn function. |
| `Lora.LoraDto.GetDataList` | src/models/lora_dto.hpp:74-76 | Answers the stored array itself. |
| `Lora.LoraDto.GetDataListSize` | src/models/lora_dto.hpp:83-85 | Answers the stored count. |
| `Lora.LoraDto.ToString` | src/models/lora_dto.hpp:92-101 | The text is `Join` of the records in use: each `key=val` in list order, one `&` between neighbours, none trailing, and the empty text for no records. |
| `Rest.RestClient.constructor` | src/interfaces/rest_client.hpp:66-70 | The host and the Wi-Fi handler are stored as given. |
| `Rest.RestClient.FormGetRequestUrl` | src/interfaces/rest_client.hpp:41-56 | The URL is the endpoint, then `?`, then `Join` of the first `dataLength` records, the same join as `LoraDTO::toString`. For no records (or a negative length) it is exactly `endpoint + "?"`. |
| `Rest.RelayUrlDecodes` | src/interfaces/rest_client.hpp:46-52 | For an endpoint without `?`, the first `?` of the URL comes right after the endpoint. The query after it parses back, by `LoraDTO::fromString`, to the same well-formed records. |
| `Rest.QueryStep` | src/interfaces/rest_client.hpp:47-52 | One turn of the URL loop: the query so far (the joined records and a trailing `&`) followed by the next `key=val`, and its `&` unless it is the last, is the join of one more record. |
| `Rest.RequestTextIsHttp` | src/interfaces/rest_client.hpp:90-94 | The hand-assembled request text is exactly an HTTP/1.1 request head: the request line `GET <url> HTTP/1.1`, the fields `Host: <host>` and `Connection: close`, then the empty line. |
| `Rest.RequestTargetOfRequestText` | src/interfaces/rest_client.hpp:90-91 | A URL without spaces is read back whole as the request target, between the first and second space of the text. |
| `Rest.RestClient.MakeGetRequest` | src/interfaces/rest_client.hpp:80-102 | When the radio reports connected and the network accepts the connection, exactly one request, `RequestText(url, host)`, is sent. It goes over a client created for the stored host, which is then deleted, and the answer is what `sendRequest` reported. Otherwise nothing is sent, the client for the host is kept, the network is rejoined and the answer is 0. The same stored host is used for the connection and for the `Host` field. |
| `Rest.WifiHandler.ConnectClient` | src/interfaces/wifi_handler.hpp:71-79 | A client is created for the given host, and the answer is whether the network accepted the connection. |
| `Rest.WifiHandler.SendRequest` | src/interfaces/wifi_handler.hpp:87-92 | The request is written once, over the current client (recorded with that client's host), the client is deleted, and the answer is what `print` reported. |
| `Rest.WifiHandler.GetStatus` | src/interfaces/wifi_handler.hpp:108-110 | The radio status, with nothing changed. |
| `Rest.WifiHandler.ConnectWiFi` | src/interfaces/wifi_handler.hpp:55-63 | Returns with the status connected, and nothing else changes. |
| `CryptoService.InitialReadiness` | src/services/crypto.hpp:49-53 | A service constructed with a key is ready exactly when the key is not empty. It then holds that key; otherwise it holds the blank context. |
| `CryptoService.InitCtxEffect` | src/services/crypto.hpp:36-41 | `initCtx` with an empty key changes neither flag nor context. With a non-empty key it sets the flag and keys the context with that key and the fixed IV. |
| `CryptoService.ReadyIsMonotone` | src/services/crypto.hpp:36-53 | Once ready, the service stays ready through any later `initCtx` calls. |
| `CryptoService.ReadyIff` | src/services/crypto.hpp:36-41 | After a series of `initCtx` calls the service is ready exactly when it was ready before or one of the keys was not empty. |
| `CryptoService.ActiveKeyIsLast` | src/services/crypto.hpp:36-41 | After a series of `initCtx` calls the context holds the last non-empty key with the fixed IV. With no non-empty key, the state is unchanged. |
| `CryptoService.GuardThrowsIffNotReady` | src/services/crypto.hpp:63-68 | `encrypt`/`decrypt` throw `"Crypto context not initialized"` exactly when the service was not ready and the override key is empty. Otherwise they use the context as keyed after the override. |
| `CryptoService.OverrideKeepsReady` | src/services/crypto.hpp:63-68 | After a call with a non-empty override key, every later call passes the guard, even one without a key. |
| `CryptoService.TransformOutcome` | src/services/crypto.hpp:63-76 | `encrypt`/`decrypt` on values: the error exactly when not ready after the override key. Otherwise the block function's output on the text as staged by the source (without its last character), cut at its first zero, so it holds no zero. |
| `CryptoService.CString` | src/services/crypto.hpp:75 | `String(char*)` keeps the characters before the first zero: the result holds no zero. |
| `CryptoService.StagingDropsLastChar` | src/services/crypto.hpp:70-71 | As written, two texts that differ only in their last character give the same buffer. A text without zeros is read back without its last character. |
| `CryptoService.StagingExample` | src/services/crypto.hpp:70-71 | As written, `"Hello World!"` is staged as `"Hello World"`. |
| `CryptoService.StageBufferRoundTrip` | src/services/crypto.hpp:70-71 | As intended (`toCharArray` given the buffer's full size), a text without zeros is read back whole from its buffer. |
| `CryptoService.Crypto.constructor` | src/services/crypto.hpp:49-53 | The flag cleared, a blank context, then `initCtx(key)`: the state is `Initial(key)`. |
| `CryptoService.Crypto.InitCtx` | src/services/crypto.hpp:36-41 | The new state is `AfterInit` of the old state and the key. |
| `CryptoService.Crypto.Encrypt` | src/services/crypto.hpp:63-76 | The override key is taken first, and the answer is `Transform` of the old state, key, text and block function. It throws exactly when not ready, and otherwise stages the text as written, dropping its last character. |
| `CryptoService.Crypto.Decrypt` | src/services/crypto.hpp:86-99 | As `Encrypt`, with the decryption block function. |
| `CryptoService.Crypto.IsReady` | src/services/crypto.hpp:106-108 | Answers the flag and changes nothing. |

## Left out

- The loggers of `RESTClient`, `WiFiHandler` and `Crypto` write to the serial port and have no effect on the protocol. They are not modelled.
- `Rest.WifiHandler.ConnectWiFi`: the polling loop waits until the radio reports connected. The model assumes that it returns, and then the status is connected. Association, TLS and the socket are network I/O: the network's answers are fields of `WifiHandler`.
- `Rest.WifiHandler.ConnectClient` does not model the leak of the previous client when a new one is created and the request is never sent.
- `WiFiHandler::getIP` and the Wi-Fi credentials are not used by the relay and are not modelled.
- `Crypto::~Crypto` and `RESTClient::~RESTClient` only free memory. They are not modelled.
- AES itself (`AES_init_ctx_iv`, `AES_ECB_encrypt`, `AES_ECB_decrypt`) is a foreign library. Keying is recorded as the key and IV the context was given. The block functions are parameters, so no ciphertext round trip is stated.
- ECB works on exactly one 16-byte block, which overruns the buffer for texts shorter than 15 characters. The block functions are parameters, so this is not modelled.
- Strings are sequences of characters. A zero character inside an Arduino `String` is not modelled (`indexOf` with a one-character `String` pattern stops at such a zero, and the character search does not).
- Integer widths: `int` and `size_t` counts are unbounded here. No input of realistic length reaches their limits.
- Inputs outside the well-formed domain (a key with `=` or `&`, a value with `&`, text without `=`) are parsed by the same total functions, but no round trip is claimed for them.

## Findings

| source | as written | input that shows it | evidently intended | confidence | as-written member | corrected member |
|---|---|---|---|---|---|---|
| src/services/crypto.hpp:70-71 | `toCharArray(textChar, length())` copies at most `length() - 1` characters, so the last character of the text never reaches the block function. The same happens in `decrypt` at line 94. | `"Hello World!"` is staged as `"Hello World"`; `"ab"` and `"ac"` give the same buffer. | `toCharArray(textChar, length() + 1)`, which copies the whole text and its terminating zero. | not executed | `CryptoService.StagingDropsLastChar` | `CryptoService.StageBufferRoundTrip` |
