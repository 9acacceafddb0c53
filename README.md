# pymeterreader in Dafny

pymeterreader reads electricity, gas and environment meters and uploads their readings to a
Volkszaehler middleware. This project models its core and proves properties of the model:

- **Readers.** The base reader serves a cached sample for one cache interval and matches a meter
  by its id, compared after `strip`, which keeps the legal characters, trims whitespace and upper-cases. The plain-text
  reader speaks IEC 62056-21 mode C: wakeup zeros, the `/?!` request, and the parsing of
  `id(value*unit)` lines. The SML reader cuts the frame between the start and end escapes and
  picks the meter id and the channels from the decoded list. The BME280 reader handles the
  address, the control registers, calibration decoding, and temperature, pressure and humidity
  compensation. The serial base configures the port and discovers serial devices.
- **Node.** The meter reader node schedules polls at the highest common factor of the channel
  intervals. It seeds each channel from the middleware's last entry, through a `get` lookup that the gateways here do not define (see Left out), casts values by their
  factor and posts every channel that is due.
- **Gateways.** The Volkszaehler gateway joins data URLs, interpolates hourly points between
  uploads and reads the last entry back. The debug gateway keeps the posts in memory.
- **Legacy program.** `pymeterreader/meter_reader.py` holds the legacy node, the configuration mapping and the
  humanfriendly time parser. It is modelled against the gateway of `gateway/gateway.py` and dictionary-shaped sample entries, the pairing its calls are written for (see Left out).
  `device_lib/meter_sml.py` is the legacy SML reader, with its byte-by-byte frame search and
  recursive list walk.

Objects whose fields the program updates are classes: readers, ports, nodes and gateways.
Pure computations are functions, with lemmas about them. Loops that update variables are
methods proved against those functions. Serial lines, I2C blocks, the SML frame decoder, HTTP
answers, directory listings and the clock are parameters.

## Model

| member | source | states |
|---|---|---|
| Common.NewSample | pymeterreader/device_lib/common.py:22-29 | a fresh sample carries the given time, the empty meter id and no channels |
| Common.Obis | pymeterreader/meter_reader.py:131 | defines `entry.get('objName', '')` |
| Common.EntryValue | pymeterreader/meter_reader.py:133 | defines `entry.get('value', '')` |
| Common.IsLegal | pymeterreader/device_lib/common.py:9 | defines membership in `LEGAL_CHARACTERS`: ASCII digits, ASCII letters and ASCII punctuation |
| Common.KeepLegal | pymeterreader/device_lib/common.py:51 | defines the comprehension that keeps the legal characters of a string, in order |
| Common.Trim | pymeterreader/device_lib/common.py:51 | defines `str.strip()` without arguments: leading and trailing whitespace removed |
| Common.KeepLegalIsLegal | pymeterreader/device_lib/common.py:9-51 | the filtered string is no longer than its input and holds only legal characters (digits, ASCII letters, punctuation) |
| Common.KeepLegalAppend | pymeterreader/device_lib/common.py:51 | the legal-character filter distributes over concatenation |
| Common.KeepLegalOfLegal | pymeterreader/device_lib/common.py:9-51 | a string of legal characters passes the filter unchanged |
| Common.TrimIsNoOp | pymeterreader/device_lib/common.py:9-51 | the whitespace trim after the filter changes nothing, since no whitespace character is legal |
| Common.Strip | pymeterreader/device_lib/common.py:44-51 | defines `strip`: keep the legal characters, trim whitespace, upper-case; its lemmas below state what that yields |
| Common.StripIsUpperOfLegal | pymeterreader/device_lib/common.py:44-51 | `strip(s)` is the upper-cased subsequence of the legal characters of `s`, in order |
| Common.StripOnlyStrippedChars | pymeterreader/device_lib/common.py:9-51 | every character of `strip(s)` is a digit, an upper-case ASCII letter or ASCII punctuation |
| Common.StripLength | pymeterreader/device_lib/common.py:51 | `strip(s)` is never longer than `s` |
| Common.StripChar | pymeterreader/device_lib/common.py:51 | a single character is kept, upper-cased, exactly when it is legal |
| Common.StripAppend | pymeterreader/device_lib/common.py:51 | `strip` distributes over concatenation |
| Common.StripIdempotent | pymeterreader/device_lib/common.py:51 | `strip(strip(s)) == strip(s)` |
| Common.StripIgnoresCase | pymeterreader/device_lib/common.py:51 | lower-casing the input first does not change `strip` |
| Common.IsSubstring | pymeterreader/device_lib/base.py:169 | defines Python's `a in b` on strings: `a` is a prefix of some suffix of `b` |
| Common.SubstringIff | pymeterreader/device_lib/base.py:169 | the `in` test on strings holds exactly when the needle occurs at some offset of the haystack |
| Common.NatToStringRoundTrip | pymeterreader/device_lib/base.py:49-50 | the decimal rendering of a number is a non-empty digit string that reads back as the same number |
| BaseReader.IdString | pymeterreader/device_lib/base.py:49-50 | defines `str(meter_id)` for a text or integer meter id |
| BaseReader.MeterIdMatches | pymeterreader/device_lib/base.py:165-173 | true when no id is expected; otherwise true exactly when the stripped expected id occurs in the stripped sample id |
| BaseReader.PollResult | pymeterreader/device_lib/base.py:88-98 | a sample is returned exactly when the fetch succeeded and its id matches, and it is the fetched one |
| BaseReader.NeedsRefresh | pymeterreader/device_lib/base.py:108-109 | defines the expiry test of `retrieve`: refresh when the cache is empty or strictly older than the cache interval |
| BaseReader.CacheAfterPoll | pymeterreader/device_lib/base.py:93-97 | defines the cache after `poll`: replaced exactly by a fetched sample whose meter id matches, otherwise kept |
| BaseReader.RetrieveStep | pymeterreader/device_lib/base.py:100-111 | a fetch happens exactly when the cache is empty or `time + cache_interval < now`; without one the cache is unchanged; a non-empty cache never becomes empty |
| BaseReader.Reader.constructor | pymeterreader/device_lib/base.py:40-50 | the expected id is the string form of the given one, or None; the cache starts empty |
| BaseReader.Reader.Fetch | pymeterreader/device_lib/base.py:76-86 | returns exactly the untracked fetch result and counts one fetch |
| BaseReader.Reader.Poll | pymeterreader/device_lib/base.py:88-98 | returns the sample only on a matching fetch and stores it in the cache exactly then; otherwise the cache is unchanged |
| BaseReader.Reader.Retrieve | pymeterreader/device_lib/base.py:100-111 | polls only when the cache is empty or expired (strict test) and always returns the cache slot afterwards, so a failed refresh returns the previous sample |
| BaseReader.FreshCacheNoFetch | pymeterreader/device_lib/base.py:108-111 | while every request time is within `cache_interval` of the cached sample, no retrieve fetches |
| BaseReader.CacheServesOneInterval | pymeterreader/device_lib/test_base.py:66-80 | repeated retrieves within one interval, starting from an empty cache, fetch exactly once |
| BaseReader.ZeroIntervalAlwaysFetches | pymeterreader/device_lib/test_base.py:57-64 | with a zero interval and strictly increasing times every retrieve fetches |
| BaseReader.MeterIdMatchExamples | pymeterreader/device_lib/test_base.py:82-90 | the test vectors ("1 2 3","123"), ("ABC","B"), ("ABC",None), ("ABC","abc") all match |
| BaseReader.StripFixed | pymeterreader/device_lib/common.py:51 | a string already made of stripped characters is its own `strip` |
| BaseReader.StripSpaced | pymeterreader/device_lib/test_base.py:84 | `strip("1 2 3") == "123"` |
| PlainCodec.RunSpec | pymeterreader/device_lib/meter_plain.py:138 | the greedy run of a character class stops at the end of the text or at the first character outside the class |
| PlainCodec.MatchAt | pymeterreader/device_lib/meter_plain.py:138 | defines the scan of one match of the pattern starting exactly at a position: the code, value and unit groups and the position after `)` |
| PlainCodec.Findall | pymeterreader/device_lib/meter_plain.py:138 | defines `re.findall` over the text: after a match continue behind it, otherwise one character on |
| PlainCodec.TokensFrom | pymeterreader/device_lib/meter_plain.py:138 | defines `re.findall` from a position: after a match continue behind it, otherwise one character on |
| PlainCodec.MatchAtSound | pymeterreader/device_lib/meter_plain.py:138 | every token the scanner reports at a position is a match of the pattern there, with the code, value and unit groups it reports |
| PlainCodec.MatchAtPositions | pymeterreader/device_lib/meter_plain.py:138 | a reported token's groups are the longest `[\d.]` run, `(`, the longest `[\d.]` run, an optional `*`, the longest `[\w\d.]` run and `)` |
| PlainCodec.MatchAtComplete | pymeterreader/device_lib/meter_plain.py:138 | whenever the pattern matches at a position the scanner reports a token there, with the same code group, ending after the same `)` |
| PlainCodec.DecimalValue | pymeterreader/device_lib/meter_plain.py:144 | defines `float()` of a string of digits and dots: its exact decimal value, or None where Python raises ValueError |
| PlainCodec.DecimalValueDefined | pymeterreader/device_lib/meter_plain.py:144 | `float()` on a digit-and-dot string succeeds exactly when it holds at most one dot and at least one digit, and the result is non-negative |
| PlainCodec.TokensWellFormed | pymeterreader/device_lib/meter_plain.py:138 | the value group of every token `findall` reports consists of digits and dots |
| PlainCodec.IsIdToken | pymeterreader/device_lib/meter_plain.py:141 | defines the identification token: code `9.21` and no unit |
| PlainCodec.ParseStep | pymeterreader/device_lib/meter_plain.py:139-144 | one more token either replaces the meter id (code `9.21`, no unit) or appends `(code, float(value), unit)` to the channels |
| PlainCodec.Parse | pymeterreader/device_lib/meter_plain.py:131-145 | raises ValueError exactly when some channel value is not a float; returns None exactly when no token matches; otherwise the last `9.21` token gives the meter id and every other token is a channel, in order, with `""` for an absent unit |
| PlainCodec.ExampleTokens | pymeterreader/device_lib/test_meter_plain.py:57-63 | the test readout yields exactly the tokens 6.8(0006047*kWh), 6.26(00428.35*m3) and 9.21(99999999) with an empty unit |
| PlainCodec.ExampleParse | pymeterreader/device_lib/test_meter_plain.py:58-63 | the test readout parses to meter id `99999999` and the channels 6.8 = 6047.0 kWh, 6.26 = 428.35 m3 |
| Utf8.DecodeScalar | pymeterreader/device_lib/meter_plain.py:72-73 | the code point of one well-formed UTF-8 sequence at the front of the bytes, with its length: a Unicode scalar and a length within the bytes |
| Utf8.EncodeChar | pymeterreader/device_lib/meter_plain.py:72-73 | the UTF-8 encoding of one character is one to four bytes |
| Utf8.Decode | pymeterreader/device_lib/meter_plain.py:72-73 | defines `bytes.decode("utf-8")` scalar by scalar: a string, or None where Python raises UnicodeDecodeError |
| Utf8.Encode | pymeterreader/device_lib/meter_plain.py:72-73 | defines the UTF-8 encoding that the decoder inverts, one to four bytes per character |
| Utf8.DecodeEncode | pymeterreader/device_lib/meter_plain.py:72-73 | decoding the UTF-8 encoding of any string gives that string back |
| Utf8.DecodeAscii | pymeterreader/device_lib/meter_plain.py:72-73 | ASCII bytes always decode, one character per byte, with the same code points |
| PlainReader.Zeros | pymeterreader/device_lib/meter_plain.py:60 | the wake-up block is exactly N zero bytes |
| PlainReader.Port.SetBaudrate | pymeterreader/device_lib/meter_plain.py:58 | sets the speed and records it in the port trace, leaving the unread lines alone |
| PlainReader.Port.Write | pymeterreader/device_lib/meter_plain.py:60-62 | records the written bytes in the trace; the speed and unread lines are unchanged |
| PlainReader.Port.Flush | pymeterreader/device_lib/meter_plain.py:64 | records the flush; nothing else changes |
| PlainReader.Port.ReadLine | pymeterreader/device_lib/meter_plain.py:66-70 | returns the next line the meter sends (empty once none is left) and consumes it |
| PlainReader.Exchange | pymeterreader/device_lib/meter_plain.py:56-70 | defines the port events of one exchange, given the lines the meter sends; its ensures: it ends by setting the working baud rate and reading the response |
| PlainReader.ExchangeWrites | pymeterreader/device_lib/meter_plain.py:56-70 | with N > 0 wake-up zeros the exchange first sets the initial speed and writes exactly N zero bytes and then `/?!` CR LF; with none it writes nothing; the response is always read after switching to the data speed |
| PlainReader.FetchUntracked | pymeterreader/device_lib/meter_plain.py:49-83 | the port sees exactly the exchange and ends at the data speed; a port that does not open gives None; a line that is not UTF-8 gives None; otherwise the result is the parse of the response (with the corrected zero-wake-up path) |
| PlainReader.Exchanged | pymeterreader/device_lib/meter_plain.py:52-70 | the identification line is read only after a wake-up, and the response is the next line the meter sends |
| PlainReader.FetchUntrackedAsWritten | pymeterreader/device_lib/meter_plain.py:49-83 | as written: with no wake-up zeros the exchange happens and then the unbound identification line raises; with wake-up zeros the result is the parse of the response |
| PlainReader.ZeroWakeupRaises | pymeterreader/device_lib/meter_plain.py:56-72 | a reader configured with zero wake-up zeros always fails as written, whatever the meter sends |
| PlainReader.ZeroWakeupReads | pymeterreader/device_lib/meter_plain.py:56-75 | the corrected reader with zero wake-up zeros reads the test readout into meter id 99999999 and its two channels |
| PlainReader.Discover | pymeterreader/device_lib/meter_plain.py:91-98 | a Device `(meter_id, serial_url, "PLAIN", channels)` exactly when the fetch returns a sample; a raised error propagates |
| Serial.ParityOf | pymeterreader/device_lib/serial_reader.py:49-53 | EVEN exactly when "EVEN" occurs; ODD exactly when "ODD" occurs and "EVEN" does not; NONE otherwise |
| Serial.ParityExamples | pymeterreader/device_lib/serial_reader.py:49-53 | the test is case-sensitive (`"even"` gives NONE) and EVEN wins over ODD |
| Serial.SerialReader.constructor | pymeterreader/device_lib/serial_reader.py:29-53 | stores the URL and settings, maps the parity, and starts without a port instance |
| Serial.SerialReader.InitializeSerialPort | pymeterreader/device_lib/serial_reader.py:57-72 | creates a port from the stored settings only when none exists, counting one initialisation; afterwards returns the same port without counting |
| Serial.InitializeTwice | pymeterreader/device_lib/serial_reader.py:57-72 | two calls return the same port, and the counter rises by at most one |
| Serial.ErrorPropagates | pymeterreader/device_lib/serial_reader.py:95-98 | an error raised while probing one port ends the whole detection with that error |
| Serial.Detected | pymeterreader/device_lib/serial_reader.py:80-99 | defines the outcome of `_detect_serial_devices`: the devices discovered, in port order, or the first exception, which is re-raised |
| Serial.DetectedSpec | pymeterreader/device_lib/serial_reader.py:74-99 | detection succeeds exactly when no probe raises; then it reports at most one device per port, and exactly the devices the probes found |
| Serial.DetectSerialDevices | pymeterreader/device_lib/serial_reader.py:74-99 | the loop builds the list of found devices in port order, stopping at the first error |
| SmlReader.ReadUntil | pymeterreader/device_lib/meter_sml.py:55-57 | `read_until(expected)` stops right after the first occurrence of the marker, or at the end of the stream; no earlier prefix ends with the marker |
| SmlReader.ReadAtMost | pymeterreader/device_lib/meter_sml.py:59 | `read(4)` returns a prefix of the remaining stream of at most four bytes, and exactly four when that many remain |
| SmlReader.Middle | pymeterreader/device_lib/meter_sml.py:66 | Python's `buf[8:-4]`: the buffer without its first eight and last four bytes, and empty when it has fewer than twelve |
| SmlReader.StartOk | pymeterreader/device_lib/meter_sml.py:63-64 | defines the start assertion: the buffer begins with the start escape |
| SmlReader.EndOk | pymeterreader/device_lib/meter_sml.py:66-67 | defines the end assertion: `buf[8:-4]` ends with the end escape |
| SmlReader.Framed | pymeterreader/device_lib/meter_sml.py:44-67 | a frame is reconstructed only when both structural checks pass on it |
| SmlReader.ReconstructedStartOk | pymeterreader/device_lib/meter_sml.py:61-64 | the reconstructed buffer `START + payload + trailer` always passes the start check |
| SmlReader.EndCheckIff | pymeterreader/device_lib/meter_sml.py:57-67 | with a 4-byte trailer the end check on `buf[8:-4]` passes exactly when the payload ends with the end escape |
| SmlReader.FramedComplete | pymeterreader/device_lib/meter_sml.py:54-67 | a stream holding START, a body, the end escape and four trailer bytes is reconstructed to exactly that frame |
| SmlReader.IsIdEntry | pymeterreader/device_lib/meter_sml.py:112-116 | defines the entry that names the meter: no `unit` key at all, and an OBIS code containing `1-0:0.0.9` |
| SmlReader.NullUnitIsChannel | pymeterreader/device_lib/meter_sml.py:112-113 | an entry whose `unit` key is present with the value None never names the meter; it is a channel with no unit |
| SmlReader.EntriesOf | pymeterreader/device_lib/meter_sml.py:103-106 | defines the value-list entries of the frame, message by message, a message without body or `valList` giving none |
| SmlReader.IdOf | pymeterreader/device_lib/meter_sml.py:116-117 | defines the meter id recorded from a server-id entry's value: the text itself (a non-text value is taken as the empty id, see Left out) |
| SmlReader.ChannelsOf | pymeterreader/device_lib/meter_sml.py:112-120 | defines the channels of a run of entries: every entry that does not name the meter, in order, with its OBIS code, value and unit |
| SmlReader.MeterIdOf | pymeterreader/device_lib/meter_sml.py:115-117 | defines the meter id after a run of entries: the last server-id entry's value, or the id given when there is none |
| SmlReader.SampleOf | pymeterreader/device_lib/meter_sml.py:102-121 | defines the sample of the entries: None without entries, else a fresh sample with their meter id and channels |
| SmlReader.Parse | pymeterreader/device_lib/meter_sml.py:96-121 | the loop gives the sample of the frame's value-list entries: None without entries, else the last server-id entry's value as meter id and all other entries as channels, in order |
| SmlReader.NoEntriesIff | pymeterreader/device_lib/meter_sml.py:102-108 | there are no entries, hence no sample, exactly when no message body has a non-empty value list |
| SmlReader.ChannelsAppend | pymeterreader/device_lib/meter_sml.py:103-120 | the channels of two runs of entries are the channels of each, in order |
| SmlReader.ChannelsAreNonIdEntries | pymeterreader/device_lib/meter_sml.py:112-120 | every channel comes from an entry that is not a server-id entry, and every such entry gives a channel (with its unit, or None) |
| SmlReader.LastIdWins | pymeterreader/device_lib/meter_sml.py:116-117 | the meter id is set by the last server-id entry; entries without one leave it unchanged |
| SmlReader.FetchSample | pymeterreader/device_lib/meter_sml.py:44-79 | a sample exactly when the port yields a stream, the frame passes both checks, the decoder accepts it and it has entries; a failed check gives None, not an exception |
| SmlReader.Poll | pymeterreader/device_lib/meter_sml.py:33-42 | returns the fetched sample exactly when it exists and its id matches; the base reader's cache is not written |
| SmlReader.Discover | pymeterreader/device_lib/meter_sml.py:87-94 | a Device `(meter_id, serial_url, "SML", channels)` exactly when a sample is fetched |
| Bme280.ParseText | pymeterreader/device_lib/sensor_bme280.py:67-74 | a `0x`-prefixed string (any case) is read as hex and raises ValueError when its digits are not hex; an all-digit string is read as decimal; any other string becomes 0x76 |
| Bme280.HexValue | pymeterreader/device_lib/sensor_bme280.py:69 | defines `int(s, 16)` of a string of hexadecimal digits |
| Bme280.RangeChecked | pymeterreader/device_lib/sensor_bme280.py:75-81 | an address of 1024 or more becomes 0x76; smaller ones (including 8- and 10-bit ones) are kept |
| Bme280.AddressAsWritten | pymeterreader/device_lib/sensor_bme280.py:67-81 | as written: an integer address never assigns `i2c_address`, so the range check raises AttributeError; a text address ends below 1024 |
| Bme280.Address | pymeterreader/device_lib/sensor_bme280.py:52-81 | the corrected constructor: an integer address is range-checked like a parsed one; text addresses behave as written; every accepted address is below 1024 |
| Bme280.IntegerAddress | pymeterreader/device_lib/sensor_bme280.py:67-81 | `Bme280Reader(0x77)` fails as written and gets address 0x77 when corrected |
| Bme280.DecimalAddressRoundTrip | pymeterreader/device_lib/sensor_bme280.py:70-71 | the decimal rendering of any address below 1024 reads back as that address |
| Bme280.HexAddress | pymeterreader/device_lib/sensor_bme280.py:68-69 | `0x`/`0X` followed by hex digits in either case reads as their value, range-checked |
| Bme280.DetectAddressValues | pymeterreader/device_lib/sensor_bme280.py:202-204 | the two probed addresses `"0x76"` and `"0x77"` parse to 0x76 and 0x77 |
| Bme280.HexAddressExamples | pymeterreader/device_lib/sensor_bme280.py:75-81 | `"0X3FF"` is kept as 1023 and `"0x400"` falls back to 0x76 |
| Bme280.OtherAddressExamples | pymeterreader/device_lib/sensor_bme280.py:68-74 | `"0xg"` raises ValueError and `"i2c"` becomes 0x76 |
| Bme280.Block | pymeterreader/device_lib/sensor_bme280.py:113-128 | a block read of n bytes from a register returns the n consecutive register values |
| Bme280.I2cBus.WriteByteData | pymeterreader/device_lib/sensor_bme280.py:106-109 | a write to a present device is recorded; to an absent one it fails (OSError) and records nothing |
| Bme280.I2cBus.ReadBlockData | pymeterreader/device_lib/sensor_bme280.py:113-128 | a read from a present device returns the register block; from an absent one it fails |
| Bme280.ControlByte | pymeterreader/device_lib/sensor_bme280.py:108 | the control byte (temperature oversampling shifted left by 5, ORed with pressure oversampling shifted left by 2 and the mode) is a byte whose fields read back as the three settings |
| Bme280.ConfigWrites | pymeterreader/device_lib/sensor_bme280.py:97-109 | the poll first writes humidity oversampling 2 to 0xF2, then 0x49 to 0xF4 |
| Bme280.Signed | pymeterreader/device_lib/sensor_bme280.py:19-41 | a two's-complement field lies in its signed range and is congruent to its unsigned bits |
| Bme280.Raw20 | pymeterreader/device_lib/sensor_bme280.py:130-131 | the 20-bit reading (first byte shifted left by 12, ORed with the second shifted left by 4 and the top nibble of the third) is below 2^20 and its fields read back as the three bytes (the low nibble being the top nibble of the third byte) |
| Bme280.Raw16 | pymeterreader/device_lib/sensor_bme280.py:132 | the 16-bit reading (first byte shifted left by 8, ORed with the second) is below 2^16 and its bytes read back |
| Bme280.DecodeRaw | pymeterreader/device_lib/sensor_bme280.py:128-132 | pressure and temperature raw values are below 2^20, humidity below 2^16 |
| Bme280.U16 | pymeterreader/device_lib/sensor_bme280.py:20-23 | an unsigned little-endian 16-bit field lies in 0..65535 |
| Bme280.S16 | pymeterreader/device_lib/sensor_bme280.py:21-33 | a signed little-endian 16-bit field lies in -32768..32767 |
| Bme280.HumidityNibbles | pymeterreader/device_lib/sensor_bme280.py:118-120 | H4 and H5 are signed 12-bit values |
| Bme280.HumidityNibblesDatasheet | pymeterreader/device_lib/sensor_bme280.py:118-120 | the nibble shuffle gives `H4 = signed(E4)*16 + (E5 & 0xF)` and `H5 = signed(E6)*16 + (E5 >> 4)`, the layout the BME280 datasheet (section 4.2.2) gives |
| Bme280.DecodeCalibrationAsWritten | pymeterreader/device_lib/sensor_bme280.py:20-41 | as written: T1, P1, H1, H3 and H6 are unsigned, so H6 lies in 0..255 |
| Bme280.DecodeCalibration | pymeterreader/device_lib/sensor_bme280.py:20-41 | the corrected decoding differs only in H6, which is the signed byte (-128..127) the datasheet specifies |
| Bme280.H6SignDiffers | pymeterreader/device_lib/sensor_bme280.py:41 | a stored H6 byte 0xFF decodes as 255 as written and as -1 when corrected |
| Bme280.H6Agrees | pymeterreader/device_lib/sensor_bme280.py:41 | for an H6 byte below 0x80 the unsigned reading and the corrected signed one give the same calibration |
| Bme280.CalibrationBytes | pymeterreader/device_lib/sensor_bme280.py:113-117 | the 32 calibration bytes are the 24 registers from 0x88, then 0xA1, then the 7 registers from 0xE1 |
| Bme280.Shr | pymeterreader/device_lib/sensor_bme280.py:135-138 | defines Python's `x >> k` on ints: division by 2^k rounding toward minus infinity |
| Bme280.TFine | pymeterreader/device_lib/sensor_bme280.py:135-137 | defines `t_fine` in the integer arithmetic of the source, with arithmetic shifts |
| Bme280.Temperature100 | pymeterreader/device_lib/sensor_bme280.py:138 | `((t_fine*5)+128)>>8` is `t_fine*5/256` rounded to the nearest integer (halves rounded up) |
| Bme280.TemperatureExample | pymeterreader/device_lib/sensor_bme280.py:135-139 | with the datasheet's example calibration and raw value 519888, `t_fine = 128422` and the temperature is 25.08 °C |
| Bme280.PressurePa | pymeterreader/device_lib/sensor_bme280.py:147-152 | the pressure formula takes its zero branch, giving 0, when P1 is 0 (the intermediate `var1` vanishes) |
| Bme280.HumidityUnclamped | pymeterreader/device_lib/sensor_bme280.py:159-163 | defines the relative humidity formula before clamping, on reals |
| Bme280.ClampHumidity | pymeterreader/device_lib/sensor_bme280.py:164-167 | humidity is kept when in [0,100]; above 100 it becomes the integer 100, below 0 the integer 0 |
| Bme280.Channels | pymeterreader/device_lib/sensor_bme280.py:139-168 | three channels in the order TEMPERATURE °C, PRESSURE hPa, HUMIDITY %; its readings use the corrected signed H6 (fourth Finding) |
| Bme280.PollResult | pymeterreader/device_lib/sensor_bme280.py:83-175 | a sample exactly when the device answers on the bus (OSError gives None); it has the empty id and three channels; its readings use the corrected signed H6 (fourth Finding) |
| Bme280.Bme280Reader.constructor | pymeterreader/device_lib/sensor_bme280.py:75-81 | the stored address is the range-checked parsed address |
| Bme280.Bme280Reader.Poll | pymeterreader/device_lib/sensor_bme280.py:83-175 | returns the sample of the device at the stored address and writes the two configuration bytes only when the device is present; its readings use the corrected signed H6 (fourth Finding) |
| Bme280.NewReader | pymeterreader/device_lib/sensor_bme280.py:52-81 | construction fails exactly when the address does not parse (with that error); otherwise the reader holds the parsed address (corrected, third Finding) |
| Bme280.DeviceAt | pymeterreader/device_lib/sensor_bme280.py:206 | defines the device found at a probed address: named after the address with the I2C suffix, protocol BME280, the sample's channels |
| Bme280.DetectedUpTo | pymeterreader/device_lib/sensor_bme280.py:201-207 | detection never reports more devices than addresses probed |
| Bme280.DetectedSpec | pymeterreader/device_lib/sensor_bme280.py:196-207 | one device per present address among 0x76 and 0x77, in that order, named after the address with the I2C bus suffix |
| Bme280.ProbeAddress | pymeterreader/device_lib/sensor_bme280.py:203-206 | one probe yields a device exactly when the poll at that address returns a sample; its readings use the corrected signed H6 (fourth Finding) |
| Bme280.Detect | pymeterreader/device_lib/sensor_bme280.py:196-207 | the loop returns exactly the devices of the detection specification; its readings use the corrected signed H6 (fourth Finding) |
| Scheduling.Hcf | pymeterreader/core/meter_reader_node.py:48-51 | `hcf_naive(a, 0) == a`, it terminates on non-negative ints, and it is 0 only for (0, 0) |
| Scheduling.HcfDivides | pymeterreader/core/meter_reader_node.py:48-51 | `hcf_naive(a, b)` divides both a and b |
| Scheduling.HcfGreatest | pymeterreader/core/meter_reader_node.py:48-51 | every positive common divisor of a and b divides `hcf_naive(a, b)` |
| Scheduling.PairStep | pymeterreader/core/meter_reader_node.py:55-57 | one pairwise reduction halves the list, rounding up |
| Scheduling.PairStepDivisors | pymeterreader/core/meter_reader_node.py:54-57 | a positive number divides every element before a reduction exactly when it divides every element after it |
| Scheduling.IntervalsBy | pymeterreader/core/meter_reader_node.py:53 | the list of channel intervals has one entry per channel key, in key order, and each entry is that channel's interval |
| Scheduling.PollInterval | pymeterreader/core/meter_reader_node.py:41-58 | raises (IndexError) exactly when there are no channels; otherwise returns a common divisor of all intervals that every positive common divisor divides (their GCD) |
| Scheduling.PollIntervalExample | pymeterreader/core/meter_reader_node.py:41-58 | the GCD of the intervals 300, 720 and 3600 is 60 |
| Scheduling.IsNumericText | pymeterreader/core/meter_reader_node.py:68 | defines `str.isnumeric()` on ASCII text: a non-empty run of digits |
| Scheduling.FloatOf | pymeterreader/core/meter_reader_node.py:68 | `float()` of an unsigned digit-and-dot string agrees with the decimal reading of the plain codec; a negative numeral gives a non-positive value |
| Scheduling.CastValue | pymeterreader/core/meter_reader_node.py:60-71 | ints and floats pass through, a numeric string is read as an integer, any other string through `float()` (ValueError exactly when that fails), bytes raise TypeError; the result is multiplied by the factor |
| Scheduling.CastNumeric | pymeterreader/core/meter_reader_node.py:68 | for an `isnumeric` string, `int()` and `float()` agree |
| Scheduling.CastRoundTrip | pymeterreader/core/meter_reader_node.py:60-71 | casting the decimal rendering of any natural number gives that number times the factor |
| MeterReaderNode.Gateway.PostValue | pymeterreader/core/meter_reader_node.py:93-96 | records the post and returns the gateway's verdict on it |
| MeterReaderNode.Names | pymeterreader/core/meter_reader_node.py:24 | the configured channel names in configuration order |
| MeterReaderNode.Seed | pymeterreader/core/meter_reader_node.py:25-37 | defines a channel's starting state: the middleware's last entry, or -1 and -1 when `get` returns None |
| MeterReaderNode.Seeded | pymeterreader/core/meter_reader_node.py:23-37 | defines the channel table the constructor builds: each configured name mapped to its settings and the seed from `get` |
| MeterReaderNode.SeededKeys | pymeterreader/core/meter_reader_node.py:23-37 | the channel table has exactly the configured channel names as keys |
| MeterReaderNode.SeededValues | pymeterreader/core/meter_reader_node.py:24-37 | each channel keeps its uuid, interval and factor, and is seeded from the middleware entry, or with last upload -1 and last value -1 when there is none |
| MeterReaderNode.UnseededIsDue | pymeterreader/core/meter_reader_node.py:26-29 | a channel seeded without a middleware entry (last upload -1) passes the due test at once for any interval up to now + 1 |
| MeterReaderNode.PushChannel | pymeterreader/core/meter_reader_node.py:86-108 | defines one channel of the push loop: skipped without a unit or configured stripped name, skipped on a ValueError cast, TypeError escapes, a due channel posts and on success records `now` and the value and counts, one not due only counts |
| MeterReaderNode.PushAll | pymeterreader/core/meter_reader_node.py:85-108 | defines the push loop over the sample's channels in order, stopping at the first TypeError |
| MeterReaderNode.PushAllStep | pymeterreader/core/meter_reader_node.py:85-108 | handling one more channel, when nothing has raised yet, is the per-channel step applied to the state so far |
| MeterReaderNode.RaisedStays | pymeterreader/core/meter_reader_node.py:85-108 | once a TypeError has escaped, later channels change nothing |
| MeterReaderNode.PushChannelUpdates | pymeterreader/core/meter_reader_node.py:88-105 | one channel keeps the set of configured keys, only ever moves a last upload to `now` (with the cast value), and leaves every entry it does not address unchanged |
| MeterReaderNode.PushUpdates | pymeterreader/core/meter_reader_node.py:85-108 | over a whole sample: the same keys, last uploads only advance to `now`, and channels not in the sample are unchanged |
| MeterReaderNode.PostsAreDue | pymeterreader/core/meter_reader_node.py:92-96 | only due channels (`last_upload + interval <= now`) are posted, with the sample's time and `now`, appended after earlier posts |
| MeterReaderNode.PostedBound | pymeterreader/core/meter_reader_node.py:81-105 | the count rises by at most one per channel of the sample |
| MeterReaderNode.CastFailureSkips | pymeterreader/core/meter_reader_node.py:106-108 | a value `float()` rejects skips that channel, changing nothing and raising nothing |
| MeterReaderNode.Node.constructor | pymeterreader/core/meter_reader_node.py:14-39 | the channel table is the seeded table of the configuration and the node keeps the gateway; the seed comes from the gateway's `lookup`, which stands for the `get` the gateways here lack (see Left out) |
| MeterReaderNode.Node.Intervals | pymeterreader/core/meter_reader_node.py:53 | one interval per configured channel (the entries are given by Scheduling.IntervalsBy) |
| MeterReaderNode.Node.PollInterval | pymeterreader/core/meter_reader_node.py:41-58 | raises exactly when no channel is configured, otherwise the GCD of the channel intervals |
| MeterReaderNode.Node.PushOne | pymeterreader/core/meter_reader_node.py:85-108 | handles one channel exactly as the per-channel step says, and a TypeError changes nothing |
| MeterReaderNode.Node.PollAndPush | pymeterreader/core/meter_reader_node.py:73-111 | the given sample is used, else a polled one; without a sample nothing changes and the result is whether no channel is configured; otherwise the table and posts are those of handling the channels in order, a TypeError escapes, and the result is whether the count equals the number of configured channels |
| DebugGateway.Lookup | pymeterreader/gateway/debug.py:30-35 | upload info exactly when the uuid has an entry; it keeps the uuid, interval and factor of the query and carries the stored timestamp and value |
| DebugGateway.Gateway.constructor | pymeterreader/gateway/debug.py:19-21 | starts with no stored entries |
| DebugGateway.Gateway.Post | pymeterreader/gateway/debug.py:23-28 | stores `(timestamp, value)` under the channel's uuid, overwriting any earlier entry, and returns True |
| DebugGateway.Gateway.GetUploadInfo | pymeterreader/gateway/debug.py:30-35 | reads the stored entry back for the channel's uuid |
| DebugGateway.Gateway.GetChannels | pymeterreader/gateway/debug.py:37-38 | always the empty list |
| DebugGateway.PostThenGet | pymeterreader/gateway/debug.py:23-34 | after a post, the upload info of the channel has the posted timestamp and value and the channel's own uuid, interval and factor |
| DebugGateway.PostKeepsOthers | pymeterreader/gateway/debug.py:26 | a post leaves every other uuid's entry unchanged |
| DebugGateway.NeverPosted | pymeterreader/gateway/debug.py:31-35 | a uuid never posted has no upload info |
| DebugGateway.PostAndQuery | pymeterreader/gateway/debug.py:23-35 | posting and then querying the gateway object returns the posted timestamp and value |
| Middleware.TrimSlashLeft | pymeterreader/gateway/volkszaehler.py:139 | `lstrip('/')` leaves no leading slash |
| Middleware.TrimSlashRight | pymeterreader/gateway/volkszaehler.py:139 | `rstrip('/')` leaves no trailing slash |
| Middleware.StripSlashes | pymeterreader/gateway/volkszaehler.py:139 | `strip('/')` leaves neither a leading nor a trailing slash |
| Middleware.StripSlashesSlice | pymeterreader/gateway/volkszaehler.py:139 | `strip('/')` returns a contiguous part of its argument |
| Middleware.StripSlashesKeeps | pymeterreader/gateway/volkszaehler.py:139 | a part without slashes is kept as it is |
| Middleware.StripAll | pymeterreader/gateway/volkszaehler.py:139 | every part is stripped of slashes, in order |
| Middleware.ReplaceSlashDot | pymeterreader/gateway/volkszaehler.py:142 | `replace('/.', '.')` never lengthens the text |
| Middleware.ReplaceKeeps | pymeterreader/gateway/volkszaehler.py:142 | text without `/.` is unchanged by the replacement |
| Middleware.ReplaceAppend | pymeterreader/gateway/volkszaehler.py:142 | the replacement distributes over a concatenation that does not create a `/.` at the seam |
| Middleware.JoinSlash | pymeterreader/gateway/volkszaehler.py:139 | defines `'/'.join(parts)` |
| Middleware.JoinFour | pymeterreader/gateway/volkszaehler.py:139 | four slash-free parts are joined with single slashes |
| Middleware.HttpPrefix | pymeterreader/gateway/volkszaehler.py:140-141 | whether the joined URL starts with `http` depends only on its first part |
| Middleware.ReplaceJoined | pymeterreader/gateway/volkszaehler.py:142 | in `url/data/uuid/.json` only the slash before the suffix is removed |
| Middleware.UrlJoin | pymeterreader/gateway/volkszaehler.py:137-143 | defines `urljoin`: strip every part's slashes, join with `/`, prefix `http://` when absent, replace `/.` by `.` |
| Middleware.JoinedUrl | pymeterreader/gateway/volkszaehler.py:137-143 | `urljoin(u, d, id, '.json')` is `u/d/id.json`, prefixed with `http://` unless `u` starts with `http` |
| Middleware.DataUrl | pymeterreader/gateway/volkszaehler.py:61 | the data URL of a channel is `u/data/<uuid>.json`, with the `http://` prefix when needed |
| Middleware.NumberOf | pymeterreader/gateway/volkszaehler.py:88 | `isinstance(value, (int, float))` holds exactly for booleans, integers and floats |
| Middleware.LatestUnique | pymeterreader/gateway/volkszaehler.py:84-85 | at most one tuple is the one a stable sort by timestamp puts last |
| Middleware.IsLatest | pymeterreader/gateway/volkszaehler.py:84-85 | defines the tuple a stable sort by timestamp puts last: none has a greater stamp, every later one a smaller stamp |
| Middleware.LatestIndex | pymeterreader/gateway/volkszaehler.py:84-85 | a non-empty tuple list has a last-after-sorting index inside it |
| Middleware.LatestIndexIsLatest | pymeterreader/gateway/volkszaehler.py:84-85 | that index holds the greatest timestamp, and every later tuple has a smaller one (the last among ties) |
| Middleware.Latest | pymeterreader/gateway/volkszaehler.py:82-85 | no tuple exactly for the empty list (the IndexError is suppressed); otherwise the index a stable sort puts last |
| Middleware.Fraction | pymeterreader/gateway/volkszaehler.py:55 | `hour / hours` lies strictly between 0 and 1 for an intermediate hour |
| Middleware.PointCount | pymeterreader/gateway/volkszaehler.py:52-53 | `range(1, hours)` under `hours <= 24` posts at most 23 points, and some exactly when 1 < hours <= 24 |
| Middleware.PointValue | pymeterreader/gateway/volkszaehler.py:55 | defines `last_value + diff * (hour / hours)` |
| Middleware.PointBetween | pymeterreader/gateway/volkszaehler.py:51-55 | each interpolated value lies between the last value and the new one, strictly when they differ |
| Middleware.Trunc | gateway/gateway.py:46 | `int(x)` truncates toward zero |
| Middleware.TruncWhole | gateway/gateway.py:46 | truncating a whole number gives it back |
| Volkszaehler.Hours | pymeterreader/gateway/volkszaehler.py:49-50 | `timedelta.seconds // 3600` lies in 0..23 |
| Volkszaehler.DaysIgnored | pymeterreader/gateway/volkszaehler.py:49-50 | adding whole days to the gap does not change the hour count |
| Volkszaehler.HoursWithinDay | pymeterreader/gateway/volkszaehler.py:49-50 | for a gap under one day the hour count is the whole hours of the gap |
| Volkszaehler.Points | pymeterreader/gateway/volkszaehler.py:52-56 | as many intermediate points as `range(1, hours)` under `hours <= 24` yields |
| Volkszaehler.PointsBetween | pymeterreader/gateway/volkszaehler.py:53-56 | point h sits at `last_upload + h*3600`, strictly inside the gap, with a value between the last and the new value |
| Volkszaehler.Gateway.constructor | pymeterreader/gateway/volkszaehler.py:33-41 | keeps the URL and the interpolation flag; nothing is uploaded yet |
| Volkszaehler.Gateway.Intermediate | pymeterreader/gateway/volkszaehler.py:48-56 | no intermediate uploads without interpolation; with it, one per point |
| Volkszaehler.Gateway.UploadOf | pymeterreader/gateway/volkszaehler.py:59-64 | defines the upload `__post_value` sends: to the channel's data URL, with the timestamp in milliseconds |
| Volkszaehler.Gateway.PostValue | pymeterreader/gateway/volkszaehler.py:59-72 | sends one upload to the channel's data URL with the timestamp in milliseconds and returns the middleware's verdict on it |
| Volkszaehler.Gateway.Post | pymeterreader/gateway/volkszaehler.py:45-57 | sends the intermediate uploads and then the value at the sample time, and returns only the verdict on that final upload |
| Volkszaehler.Gateway.UploadInfoOf | pymeterreader/gateway/volkszaehler.py:78-100 | defines what `get_upload_info` returns for a decoded answer: None on a request error, without `data`, with `rows` not positive, without tuples or with a non-number; else the channel with the latest tuple's seconds and value |
| Volkszaehler.Gateway.GetUploadInfo | pymeterreader/gateway/volkszaehler.py:74-100 | the method's result is the upload info of the answer's latest tuple |
| Volkszaehler.UploadInfoSpec | pymeterreader/gateway/volkszaehler.py:74-100 | upload info exactly when the request succeeded, `data` is present with positive `rows`, a tuple exists and the latest value is a number; it keeps uuid, interval and factor and carries the greatest timestamp (the last among ties) with its value |
| Volkszaehler.Complete | pymeterreader/gateway/volkszaehler.py:121 | defines an entry that has both uuid and title |
| Volkszaehler.Describe | pymeterreader/gateway/volkszaehler.py:116-123 | defines the description of an entry with uuid and title: those two, and type and description defaulting to the empty string |
| Volkszaehler.Described | pymeterreader/gateway/volkszaehler.py:114-128 | defines the descriptions of the entries that have uuid and title, in order; the others are only logged |
| Volkszaehler.GetChannels | pymeterreader/gateway/volkszaehler.py:102-135 | nothing when the request fails; otherwise the descriptions of the entries, in order |
| Volkszaehler.DescribedAppend | pymeterreader/gateway/volkszaehler.py:114-123 | the descriptions of two runs of entries are those of each, in order |
| Volkszaehler.DescribedMembers | pymeterreader/gateway/volkszaehler.py:114-128 | a description is in the result exactly when some entry has both uuid and title and describes to it, with type and description defaulting to `""` |
| LegacyGateway.Millis | gateway/gateway.py:45-46 | an int timestamp is sent unchanged; a float one becomes `int(ts*1000)`, truncated toward zero |
| LegacyGateway.MillisOfWholeSeconds | gateway/gateway.py:45-46 | a float timestamp of whole seconds is sent as milliseconds |
| LegacyGateway.LatestEntry | gateway/gateway.py:61-85 | defines what `get` returns for a decoded answer: None on OSError, without `data`, with `rows` not positive, without tuples or with a non-number; the TypeError of a missing `rows`; else the latest tuple's seconds and value |
| LegacyGateway.LatestEntrySpec | gateway/gateway.py:59-85 | a TypeError exactly when `data` has no `rows`; an entry exactly when `rows > 0`, a tuple exists and the latest value is a number; then its timestamp is `int(ms)//1000` of the tuple a stable sort puts last, which no other tuple's exceeds |
| LegacyGateway.Gateway.constructor | gateway/gateway.py:40-41 | keeps the URL and the interpolation flag; nothing is uploaded yet |
| LegacyGateway.Gateway.UploadOf | gateway/gateway.py:44-48 | defines the upload `post` sends: to the data URL of the uuid, with the timestamp converted by `Millis` |
| LegacyGateway.Gateway.Post | gateway/gateway.py:43-57 | sends one upload to the data URL with the converted timestamp, and returns False only on OSError; a non-200 status still gives True |
| LegacyGateway.Gateway.Get | gateway/gateway.py:59-85 | the method's result is the latest entry of the middleware's answer for that uuid |
| LegacyNode.RoundHalfEven | pymeterreader/meter_reader.py:161 | Python's `round` gives the nearest integer, and the even one of two equally near |
| LegacyNode.RoundHalfEvenExamples | pymeterreader/meter_reader.py:161 | `round(2.5) == 2`, `round(3.5) == 4`, `round(-0.5) == 0`, `round(1.4) == 1` |
| LegacyNode.InterpolationHours | pymeterreader/meter_reader.py:161 | defines `round((cur_time - last_upload) / 3600)` with Python 3's half-to-even `round` |
| LegacyNode.ShiftedAsWritten | pymeterreader/meter_reader.py:165 | defines `last_upload + hour * 3600` as written: an int last upload stays an int, a float one a float |
| LegacyNode.ShiftedIntSentAsSeconds | pymeterreader/meter_reader.py:165-169 | as written, a point after an int last upload is sent with `ts` in seconds, not milliseconds |
| LegacyNode.ShiftedAsWrittenExample | pymeterreader/meter_reader.py:161-169 | last upload 1600000000 from `get` and now 1600007200.0: the hour-1 point goes out with `ts` 1600003600 while the value itself goes out with 1600007200000 |
| LegacyNode.PointStamp | pymeterreader/meter_reader.py:165 | defines the corrected point time (fifth Finding): always a float number of seconds, so that `post` converts it to milliseconds |
| LegacyNode.PointStampMillis | pymeterreader/meter_reader.py:165 | corrected, every point is sent in milliseconds, whatever kind of number the last upload is |
| LegacyNode.PointStampAgrees | pymeterreader/meter_reader.py:165 | after a float last upload the corrected point time is the one the source computes |
| LegacyNode.PointUploads | pymeterreader/meter_reader.py:160-169 | one upload per intermediate hour of the rounded gap; interpolated points carry the corrected millisecond stamp (fifth Finding) |
| LegacyNode.PointUploadsSpec | pymeterreader/meter_reader.py:160-169 | no points when the rounded gap exceeds 24 hours or is under 2; otherwise exactly hours-1 points; point h goes to the channel's data URL at `last_upload + h*3600`, strictly inside the gap, with a value between the last and the new value; interpolated points carry the corrected millisecond stamp (fifth Finding) |
| LegacyNode.HasUnit | pymeterreader/meter_reader.py:128-130 | defines `if cur_unit:`: a missing unit key, a unit holding None and an empty unit are falsy |
| LegacyNode.Due | pymeterreader/meter_reader.py:135 | defines the due test: last upload plus interval is at most `now` |
| LegacyNode.PushEntry | pymeterreader/meter_reader.py:128-155 | defines one variable of the push loop: skipped without a truthy unit or configured stripped name, skipped on a ValueError cast, TypeError escapes, a due channel posts, one not due only counts; due points come from `LegacyNode.PointUploads` (corrected stamps, fifth Finding) |
| LegacyNode.DuePost | pymeterreader/meter_reader.py:137-149 | defines a due channel's posts: the interpolated points when the gateway interpolates, then the value at the sample time; an accepted post records `now` and the value and counts (corrected stamps, fifth Finding) |
| LegacyNode.PushAll | pymeterreader/meter_reader.py:127-155 | defines the push loop over the sample's variables in order, stopping at the first TypeError (corrected stamps, fifth Finding) |
| LegacyNode.PushAllStep | pymeterreader/meter_reader.py:127-155 | handling one more variable, when nothing has raised yet, is the per-variable step applied to the state so far |
| LegacyNode.RaisedStays | pymeterreader/meter_reader.py:127-155 | once a TypeError has escaped, later variables change nothing |
| LegacyNode.FalsyUnitSkipped | pymeterreader/meter_reader.py:128-130 | a variable with a missing unit key, a unit holding None or an empty unit is skipped |
| LegacyNode.DueChannelPosts | pymeterreader/meter_reader.py:135-149 | a due channel sends its interpolated points (when the gateway interpolates) before the value at the sample time, and counts exactly when that post raises no OSError; interpolated points carry the corrected millisecond stamp (fifth Finding) |
| LegacyNode.NotDueCounts | pymeterreader/meter_reader.py:150-152 | a channel that is not due counts without a post |
| LegacyNode.UnstrippedKeyUntouched | pymeterreader/meter_reader.py:131-132 | a channel key that `strip` would change is never addressed, since lookups use the stripped object name |
| LegacyNode.PushGrows | pymeterreader/meter_reader.py:127-158 | uploads are only appended, the count rises by at most one per variable, and the set of keys is kept |
| LegacyNode.PushKeepsSettings | pymeterreader/meter_reader.py:144-145 | a push keeps every key and each channel's uuid, interval and factor; only the last upload and value change |
| LegacyNode.PushIgnoresUploads | pymeterreader/meter_reader.py:127-158 | the channel table, the count and whether a TypeError escapes do not depend on the uploads sent before the push |
| LegacyNode.SeedOf | pymeterreader/meter_reader.py:69-80 | defines a channel's starting state: `get`'s whole seconds and value, or the int -1 and -1 when `get` returns None |
| LegacyNode.SeedFrom | pymeterreader/meter_reader.py:68-80 | defines the seed of one configured channel from the answer to its `get` |
| LegacyNode.Seeded | pymeterreader/meter_reader.py:66-80 | defines the channel table `__init__` builds: each configured name mapped to its configuration and the seed from its `get` |
| LegacyNode.SeededKeys | pymeterreader/meter_reader.py:66-80 | when no `get` raises, the table has exactly the configured names as keys |
| LegacyNode.SeededValues | pymeterreader/meter_reader.py:67-80 | each channel keeps its configuration and is seeded from `get`, or with the int -1 and -1 when `get` returns None |
| LegacyNode.Node.constructor | pymeterreader/meter_reader.py:57-82 | a node over a seeded table with distinct keys |
| LegacyNode.Node.Intervals | pymeterreader/meter_reader.py:95 | the channel intervals in key order |
| LegacyNode.Node.PollInterval | pymeterreader/meter_reader.py:84-100 | raises exactly when there are no channels, otherwise the GCD of the channel intervals |
| LegacyNode.Node.PushInterpolated | pymeterreader/meter_reader.py:160-169 | sends exactly the interpolated uploads of the channel; interpolated points carry the corrected millisecond stamp (fifth Finding) |
| LegacyNode.Node.PostDue | pymeterreader/meter_reader.py:135-149 | the post of a due channel: on success the channel records `now` and the value and counts; interpolated points carry the corrected millisecond stamp (fifth Finding) |
| LegacyNode.Node.PushOne | pymeterreader/meter_reader.py:127-155 | handles one variable exactly as the per-variable step says, and a TypeError changes nothing; interpolated points carry the corrected millisecond stamp (fifth Finding) |
| LegacyNode.Node.PollAndPush | pymeterreader/meter_reader.py:115-158 | the given sample is used, else a polled one; without a sample nothing changes and the result is whether no channel is configured; otherwise the table and uploads are those of handling the variables in order, and the result is whether the count equals the number of channels; interpolated points carry the corrected millisecond stamp (fifth Finding) |
| LegacyNode.Create | pymeterreader/meter_reader.py:57-82 | fails exactly when some `get` raises; otherwise the node has the configured keys in order and the seeded table |
| LegacyConfig.HumanfriendlyTimeParser | pymeterreader/meter_reader.py:25-33 | an int is returned as is and a float is truncated toward zero by `int()`; a string gives the timespan parser's answer |
| LegacyConfig.TimeParserWholeFloat | pymeterreader/meter_reader.py:33 | a float holding a whole number of seconds gives that number |
| LegacyConfig.Configured | pymeterreader/meter_reader.py:266-271 | defines the entry recorded for a matching channel: its uuid, its interval (default `1h`) and its factor (default 1) |
| LegacyConfig.Matches | pymeterreader/meter_reader.py:269 | defines `strip(str(channel_name)) in strip(str(obj_name))` |
| LegacyConfig.MatchVariable | pymeterreader/meter_reader.py:264-271 | defines the inner loop for one variable: every channel whose stripped name occurs in the stripped object name writes its `(uuid, interval, factor)` under the raw object name, later ones overwriting earlier ones |
| LegacyConfig.Matched | pymeterreader/meter_reader.py:262-271 | defines `available_channels` after all the variables of the sample, in order |
| LegacyConfig.LastMatch | pymeterreader/meter_reader.py:265-271 | the last configured channel whose stripped name occurs in the stripped object name, or None exactly when none does |
| LegacyConfig.MatchVariableLast | pymeterreader/meter_reader.py:263-271 | for one variable, the table gets the entry of the last matching channel under the raw object name, or stays unchanged when none matches |
| LegacyConfig.MatchedSpec | pymeterreader/meter_reader.py:262-271 | an object name is a key exactly when some variable has it and some channel matches it; its value is `(uuid, interval, factor)` of the last matching channel, with defaults `1h` and 1 |
| LegacyConfig.Record | pymeterreader/meter_reader.py:271 | records one entry and keeps the keys listed in first-insertion order |
| LegacyConfig.MatchOne | pymeterreader/meter_reader.py:265-271 | the inner loop over the channels computes the table for one variable |
| LegacyConfig.MatchChannels | pymeterreader/meter_reader.py:262-271 | the nested loops compute `available_channels`, with each key listed once |
| LegacyConfig.SeededTable | pymeterreader/meter_reader.py:66-80 | defines the table a node over the matched channels starts from: each channel seeded from its `get` |
| LegacyConfig.Registration | pymeterreader/meter_reader.py:261-282 | defines what registering one polled device does: no node without a match, MissingRows or UncastableValue when `get` or the first push raises, else a node kept exactly when the first push posts every channel; and the uploads sent (corrected stamps, fifth Finding) |
| LegacyConfig.RegisterDevice | pymeterreader/meter_reader.py:261-282 | the uploads and the outcome are those of the registration specification: no node and no upload when no channel matches; a missing `get` row or an uncastable value escapes; otherwise a node is returned exactly when its first push returns true, and it is over exactly the matched keys, uses the shared gateway, and its channel table is the table seeded from the matched channels after that first push; interpolated points carry the corrected millisecond stamp (fifth Finding) |
| LegacyConfig.ConfigOf | pymeterreader/meter_reader.py:271-275 | the configuration handed to the node lists the matched channels in the order they were first matched |
| LegacyConfig.ConfigAnswered | pymeterreader/meter_reader.py:262-275 | every `get` of the node's configuration answers exactly when those of the matched channels do |
| LegacyConfig.ConfigSeeded | pymeterreader/meter_reader.py:262-275 | a node over the matched channels starts from exactly those channels, each seeded from its own `get`, one per key |
| LegacyConfig.Supported | pymeterreader/meter_reader.py:251-259 | defines the protocols a reader exists for: `SML`, `PLAIN` and `BME280` |
| LegacyConfig.Complete | pymeterreader/meter_reader.py:248-250 | defines a device whose `id`, `protocol` and `channels` can all be popped |
| LegacyConfig.Registrations | pymeterreader/meter_reader.py:247-286 | defines the device loop from a device on: an incomplete device ends it (the KeyError caught at 285), an unsupported protocol raises, a device without a sample is passed over, otherwise the device is registered; the indices of the devices kept, the escaping error and the uploads (corrected stamps, fifth Finding) |
| LegacyConfig.StopAt | pymeterreader/meter_reader.py:247-259 | the device at which the loop leaves off: every device before it has `id`, `protocol` and `channels` and a supported protocol, and it lacks one of them or has an unsupported protocol |
| LegacyConfig.RegisteredDevices | pymeterreader/meter_reader.py:247-284 | the devices that become nodes come in configuration order and before the stop, each with a sample and a non-empty channel table |
| LegacyConfig.UnsupportedStops | pymeterreader/meter_reader.py:247-260 | the unsupported-protocol error escapes only when the loop stops at a complete device, and stopping at a complete device always raises |
| LegacyConfig.RegisterAt | pymeterreader/meter_reader.py:247-284 | one turn of the device loop: an incomplete device stops it, an unsupported protocol raises, a device without a sample is passed over, any other is registered; each as the loop specification says from that device on; a registered node's table is its seeded table after the first push, whatever was uploaded before, so each channel keeps the uuid, interval and factor it was matched with |
| LegacyConfig.RegisterAll | pymeterreader/meter_reader.py:246-286 | the uploads, the escaping error and the nodes of the device loop are those of the loop specification from device 0; node k comes from the k-th registered device, over its matched keys on the shared gateway, with the seeded table of its matched channels after the first push (each channel keeping its matched uuid, interval and factor); interpolated points carry the corrected millisecond stamp (fifth Finding) |
| LegacyConfig.MapConfiguration | pymeterreader/meter_reader.py:230-289 | no gateway and no node without `devices` or `middleware`, or with a middleware type other than `volkszaehler`; otherwise a fresh gateway with the configured URL and interpolation, and uploads, escaping error and nodes as the loop specification says from device 0, each node holding its matched channels' seeded table after the first push; interpolated points carry the corrected millisecond stamp (fifth Finding) |
| LegacySmlScan.Marker | device_lib/meter_sml.py:81 | defines the bytes the start search keeps: 0x1B and 0x01 |
| LegacySmlScan.AsWrittenBuf | device_lib/meter_sml.py:78-84 | defines the as-written start buffer after the bytes read: a marker byte (0x1B or 0x01) is appended, any other byte empties it |
| LegacySmlScan.AsWrittenBufSuffix | device_lib/meter_sml.py:78-84 | the as-written start buffer is always a suffix of the bytes read so far |
| LegacySmlScan.AsWrittenBufMaximal | device_lib/meter_sml.py:81-84 | the byte just before the buffer is never a marker byte (0x1B or 0x01): any other byte empties the buffer |
| LegacySmlScan.AsWrittenBufRun | device_lib/meter_sml.py:78-84 | the buffer is exactly the trailing run of marker bytes |
| LegacySmlScan.StartSeqMarkers | device_lib/meter_sml.py:26 | every byte of the start marker is 0x1B or 0x01 |
| LegacySmlScan.AsWrittenRecognises | device_lib/meter_sml.py:78-84 | as written, the loop sees the start marker exactly when the bytes read end with it and the byte before it, if any, is not 0x1B or 0x01 |
| LegacySmlScan.StartAfterMarkerMissed | device_lib/meter_sml.py:79-84 | a start marker directly preceded by 0x1B or 0x01 is never recognised at its end |
| LegacySmlScan.MissedStartExample | device_lib/meter_sml.py:79-84 | on the bytes `01 1B 1B 1B 1B 01 01 01 01`, which contain the start marker, no prefix makes the as-written loop stop |
| LegacySmlScan.StartScanAsWritten | device_lib/meter_sml.py:78-84 | the as-written loop stops at the first position where its buffer equals the start marker, or at the end of the stream (the timeout) |
| LegacySmlScan.StartFrom | device_lib/meter_sml.py:78-84 | corrected: the first position, from i on, at which the bytes read end with the start marker, or None exactly when there is none |
| LegacySmlScan.FindStart | device_lib/meter_sml.py:78-84 | the corrected start search (a sliding eight-byte window) stops exactly at the first end of a start marker |
| LegacySmlScan.EndsFrame | device_lib/meter_sml.py:86 | defines `buf[8:-4].endswith(END_SEQ)` |
| LegacySmlScan.EndsFrameAt | device_lib/meter_sml.py:86 | `buf[8:-4].endswith(END_SEQ)` for `START + s[p..k]` holds exactly when at least eight bytes follow the start and `s[k-8..k-4]` is the end escape |
| LegacySmlScan.FrameEnd | device_lib/meter_sml.py:86-88 | the first position from k on at which the frame read so far passes the end check, or None exactly when none does |
| LegacySmlScan.EndScan | device_lib/meter_sml.py:86-88 | the end loop appends bytes until the end check first passes, or the stream ends |
| LegacySmlScan.ReadFrame | device_lib/meter_sml.py:77-91 | defines the frame `poll` hands to the decoder: the start marker and the bytes after the first start marker up to the first end, if both occur (corrected start search, second Finding) |
| LegacySmlScan.ReadFrameSpec | device_lib/meter_sml.py:77-91 | a frame exactly when a start marker and then an end are found; the frame is the start marker followed by the bytes after the first start up to the first end, and it passes the end check |
| LegacySmlScan.ReadFrameFrom | device_lib/meter_sml.py:77-91 | the two loops (with the corrected start search) read exactly that frame |
| LegacySml.TextInt | device_lib/meter_sml.py:41-43 | defines `int()` of a string: an optional minus sign and at least one ASCII digit |
| LegacySml.AsciiText | device_lib/meter_sml.py:41-43 | defines the text a bytes value reads as for `int()`: each byte as the character of the same code |
| LegacySml.PythonInt | device_lib/meter_sml.py:41-43 | defines Python's `int(x)` on the values the constructor sees: an int as is, a float truncated toward zero, a numeral read from text or from bytes, ValueError otherwise |
| LegacySml.TextIntOfDigits | device_lib/meter_sml.py:41-43 | `int()` of a digit string, optionally negated, is its decimal value |
| LegacySml.PythonIntRoundTrip | device_lib/meter_sml.py:41-43 | `int(str(i)) == i` for every integer |
| LegacySml.PythonIntExamples | device_lib/meter_sml.py:41-43 | `int("")`, `int("-")` and `int("96.0")` raise ValueError; `int(-2.5) == -2`, `int(9600.9) == 9600` and `int(b'9600') == 9600`; `int(b'\xb9')` raises ValueError |
| LegacySml.IntOr | device_lib/meter_sml.py:41-43 | defines `int(kwargs.pop(key, default))`, with bytes numerals read as text |
| LegacySml.LegacyParity | device_lib/meter_sml.py:44-50 | defines the parity: NONE unless a `parity` argument whose stripped text contains EVEN, or else ODD |
| LegacySml.Configure | device_lib/meter_sml.py:40-53 | defines the settings the constructor reads from its keyword arguments, or the ValueError it gives up on |
| LegacySml.ConfigureSpec | device_lib/meter_sml.py:40-53 | defaults 9600 baud, 8 bits, 1 stop bit and no parity; ValueError exactly when a given baudrate, bytesize or stopbits is not an integer, a float or an integer numeral in text or bytes; given values are kept as `int()` reads them |
| LegacySml.LegacyParitySpec | device_lib/meter_sml.py:44-50 | the parity test ignores case (it runs on `strip`ped text); EVEN exactly when "EVEN" occurs, ODD exactly when "ODD" occurs without "EVEN" |
| LegacySml.FirstId | device_lib/meter_sml.py:134-137 | the first variable without a `unit` key whose stripped value contains the stripped meter id, or None exactly when there is none |
| LegacySml.Truthy | device_lib/meter_sml.py:138 | defines Python truthiness of the meter id |
| LegacySml.StrOf | device_lib/meter_sml.py:135 | defines `str(variable.get('value', ''))`, with the rendering of non-text values a parameter |
| LegacySml.IsIdVariable | device_lib/meter_sml.py:135 | defines the identifying variable: no `unit` key at all (`'unit' not in variable`), and a stripped value containing the stripped meter id |
| LegacySml.KeyedUnitsNameNoMeter | device_lib/meter_sml.py:134-137 | a value list whose every variable has a `unit` key, even one holding None, sets no meter id: the message keeps the id it had |
| LegacySml.ParseMessage | device_lib/meter_sml.py:132-139 | defines one message: its first identifying variable sets the meter id, and once the id is truthy the whole value list is appended |
| LegacySml.ParseNode | device_lib/meter_sml.py:120-140 | defines `__parse` on one node: a list element by element, a dict with `messageBody` as a message, anything else ignored |
| LegacySml.ParseItems | device_lib/meter_sml.py:128-130 | defines the walk over a list's elements in order, each on the sample the previous ones left |
| LegacySml.ParseMessageSpec | device_lib/meter_sml.py:132-139 | the first identifying variable of the message sets the meter id and the scan stops; without one the id is unchanged; the whole value list, including the id variable, is appended exactly when the id is then truthy |
| LegacySml.ParseNodeGrows | device_lib/meter_sml.py:120-140 | walking a node only appends channels |
| LegacySml.ParseItemsGrows | device_lib/meter_sml.py:128-130 | walking a list of nodes only appends channels |
| LegacySml.UnidentifiedUnchanged | device_lib/meter_sml.py:128-139 | while the meter id is falsy, a node without an identifying variable changes nothing |
| LegacySml.UnidentifiedItemsUnchanged | device_lib/meter_sml.py:128-130 | while the meter id is falsy, a list none of whose nodes identifies the meter changes nothing |
| LegacySml.SingleMessage | device_lib/meter_sml.py:120-140 | a list holding one message whose first identifying variable has a truthy value gives that value as the id and the message's whole value list as the channels |
| LegacySml.ParsedSample.constructor | device_lib/meter_sml.py:126-127 | a fresh sample has no id and no channels |
| LegacySml.Reader.constructor | device_lib/meter_sml.py:29-54 | keeps the meter id and the settings and starts unbound |
| LegacySml.Reader.ParseMessageInto | device_lib/meter_sml.py:132-139 | the loop with its `break` updates the shared sample as the message step says |
| LegacySml.Reader.ParseInto | device_lib/meter_sml.py:120-140 | the recursive walk updates the shared sample as the walk over the node says |
| LegacySml.Reader.PolledAt | device_lib/meter_sml.py:67-99 | defines the sample a poll at a tty gives: None on OSError or without a frame, else the walk of the decoder's second element, kept when it set a meter id (corrected start search, second Finding) |
| LegacySml.Reader.PollAt | device_lib/meter_sml.py:67-99 | a sample exactly when the port opens, a frame is read, the decoder gives more than one element and walking `frame[1]` sets an id; OSError gives None; frames are found by the corrected start search (second Finding) |
| LegacySml.Reader.FirstBound | device_lib/meter_sml.py:109-115 | the first listed tty whose poll succeeds, or None exactly when none does; frames are found by the corrected start search (second Finding) |
| LegacySml.Reader.Probe | device_lib/meter_sml.py:101-118 | binds the first tty whose poll succeeds and returns True; otherwise the path is reset (left alone when no tty is listed) and it returns False; frames are found by the corrected start search (second Finding) |
| LegacySml.Reader.Poll | device_lib/meter_sml.py:56-99 | an unbound reader probes and returns True when the probe binds a tty and None otherwise, never a sample; a bound reader keeps its path and returns the sample polled there; frames are found by the corrected start search (second Finding) |
| LegacySml.NewReader | device_lib/meter_sml.py:40-54 | construction fails exactly when the settings raise ValueError; otherwise the reader has the configured settings and starts unbound |

## Left out

- Bme280.PressurePa: of the zero guard, only the P1 = 0 case is stated. The other root of the intermediate `var1` is not characterised.
- The legacy `device_lib/common.py` (its `strip` and `Sample`) is not part of this model. The legacy reader uses `strip` as `pymeterreader/device_lib/common.py:44-51` defines it.
- Foreign libraries are parameters or small classes standing for the calls made on them: pyserial ports, smbus, `SmlBase.parse_frame`, requests and JSON answers, `os.listdir` of the tty directory, and the clock.
- Threads, locks, `sleep` and timeouts are left out. The serial read timeout and the legacy SML reader's ten-second limit are modelled as the end of the byte stream.
- Prometheus counters and logging are left out. They do not change any result.
- Floating point: the pressure and humidity formulas and the interpolated values are computed on reals. `float()` of a decimal text is its exact value.
- Python `int()` is modelled on an optional `-` and digits, and `float()` on an optional `-` or `+`, digits and one decimal point. Whitespace, underscores, exponents, `inf` and `nan` are not modelled, nor is a `+` before an `int()` argument. A bytes argument of `int()` is read as the text of its byte codes, the same grammar.
- The regex classes `\d` and `\w`, `str.isnumeric()` and `int()` are limited to ASCII digits. In the source a non-ASCII numeral such as `"٣"` casts to 3 where the model skips it as a ValueError (`Scheduling.IsNumericText`, `Scheduling.CastValue`), and a BME280 address such as `"½"` passes `isnumeric()` and then raises ValueError in `int()` where the model falls back to 0x76 (`Bme280.ParseText`).
- `str()` of non-text channel names and a missing uuid in the configuration are not modelled.
- Exceptions raised by `parse_frame` other than OSError are not modelled.
- The legacy SML constructor's early `return` on ValueError leaves a half-built object. It is modelled as an `Err` result of `LegacySml.NewReader`.
- DebugGateway.Gateway.Post: `timestamp_to_int` is defined neither in `pymeterreader/gateway/debug.py` nor in `pymeterreader/gateway/basegateway.py`, so as written `post` raises AttributeError on its first line. The model takes it to be the identity on a whole-second timestamp and records the pair.
- Timestamps are ints or reals of seconds. Milliseconds divided by 1000 are floored.
- `humanfriendly.parse_timespan` is a parameter of `LegacyConfig.HumanfriendlyTimeParser`.
- The `map_configuration` test vector in `pymeterreader/test_meter_reader.py:55-62` is not restated. It passes the dictionary `EXAMPLE_CONF` with mocked readers and a mocked gateway, but its samples hold `ChannelValue` records (test_meter_reader.py:23-32), so `variable.get('objName', '')` at meter_reader.py:264 raises AttributeError. Its gateway also has no `get` for meter_reader.py:68, and its `post` takes four arguments. The legacy model uses dictionary entries and the three-argument gateway instead (next line).
- LegacyNode and LegacyConfig.MapConfiguration: the model pairs `pymeterreader/meter_reader.py` with the gateway of `gateway/gateway.py` (three-argument `post`, and `get`) and with samples whose channel entries are dictionaries. As written, meter_reader.py:14-15 imports `pymeterreader.gateway`, whose `VolkszaehlerGateway` has no `get` and a four-argument `post` (pymeterreader/gateway/volkszaehler.py:45-46, 74), and `pymeterreader.device_lib`, whose samples hold `ChannelValue` records. Run against those, the node raises AttributeError at meter_reader.py:68 (`gateway.get`) and at :128 and :264 (`entry.get`, `variable.get`), and TypeError at the three-argument `post` of :141 and :167. The model states the behaviour of the intended pairing, not these failures.
- `MeterReaderTask` threads, the `MeterReader` start and stop loop and `main` are left out.
- The BME280 measurement wait time and `read_chip_info` are left out. So is the plain reader's energy metric.
- Channel names are map keys, so they are distinct by construction. The node constructors do not restate this.
- LegacyConfig.MatchChannels: intervals are required to be non-negative. A configuration whose interval is a negative number is not modelled.
- LegacyConfig.MapConfiguration: intervals are required to be non-negative, for the same reason.
- LegacyConfig.MatchOne: intervals are required to be non-negative, for the same reason.
- LegacyConfig.MatchedSpec: intervals are required to be non-negative, for the same reason.
- LegacyConfig.MatchVariableLast: intervals are required to be non-negative, for the same reason.
- LegacyConfig.RegisterDevice: intervals are required to be non-negative, for the same reason.
- LegacyConfig.Configured: the interval is required to be non-negative, for the same reason.
- LegacyConfig.MatchVariable: intervals are required to be non-negative, for the same reason.
- LegacyConfig.Matched: intervals are required to be non-negative, for the same reason.
- LegacyConfig.Registration: intervals are required to be non-negative, for the same reason.
- LegacyConfig.Registrations: intervals are required to be non-negative, for the same reason.
- The legacy node's constructor is split into `LegacyNode.Create`, which queries the gateway, and `LegacyNode.Node.constructor`, which stores the seeded channels.
- Both nodes call `gateway.get` to seed their channels and take the current time from `time()` as a float. Times are modelled as int seconds, plus a float stamp where the legacy gateway tells the two apart.
- MeterReaderNode: the model assumes a gateway with a `get(uuid)` that returns the middleware's last `(time, value)` pair or None; it is the `lookup` function of `MeterReaderNode.Gateway`. No gateway in `pymeterreader/gateway` has such a method (`BaseGateway` offers `get_upload_info`), so as written the constructor raises AttributeError at pymeterreader/core/meter_reader_node.py:25 for any node with a channel. The model also takes `now` as an int. As written it is the float `time()` (meter_reader_node.py:80), and `VolkszaehlerGateway.post` with interpolation on computes `(poll_timestamp - channel.last_upload).seconds` (pymeterreader/gateway/volkszaehler.py:49-50), which raises AttributeError on a float. Even without interpolation, `__post_value` calls `timestamp.timestamp()` (volkszaehler.py:63) on `sample.time`, a float (pymeterreader/device_lib/common.py:27, meter_reader_node.py:95), so every post raises AttributeError, which the handler for `RequestException` at volkszaehler.py:69 does not catch; the model posts the int sample time. Intervals are `nat` (`MeterReaderNode.ChannelConfig.interval`), while `ChannelUploadInfo.interval` admits any int or float, so fractional and negative intervals are not modelled for this node.
- Bme280.Channels: the readings use the corrected signed H6 of the fourth Finding. As written, H6 is read unsigned, so humidity differs whenever calibration byte 0xE7 is 0x80 or more; `Bme280.H6Agrees` shows the two readings agree below that.
- Bme280.PollResult: uses the corrected signed H6, as `Bme280.Channels` does.
- Bme280.Bme280Reader.Poll: uses the corrected signed H6, as `Bme280.Channels` does.
- Bme280.ProbeAddress: uses the corrected signed H6, as `Bme280.Channels` does. Whether a device is found does not depend on it.
- Bme280.Detect: uses the corrected signed H6, as `Bme280.Channels` does. Which devices are found does not depend on it.
- LegacyNode.PointUploads: interpolated points carry the corrected stamp of the fifth Finding. As written, a point after an int last upload is sent in seconds where milliseconds are expected; after a float last upload the two agree (`LegacyNode.PointStampAgrees`).
- LegacyNode.PointUploadsSpec: states the corrected stamps, as `LegacyNode.PointUploads` computes them.
- LegacyNode.DueChannelPosts: the interpolated points carry the corrected stamp, as in `LegacyNode.PointUploads`.
- LegacyNode.Node.PushInterpolated: sends the corrected stamps, as in `LegacyNode.PointUploads`.
- LegacyNode.Node.PostDue: sends the corrected stamps, as in `LegacyNode.PointUploads`.
- LegacyNode.Node.PushOne: sends the corrected stamps, as in `LegacyNode.PointUploads`.
- LegacyNode.Node.PollAndPush: sends the corrected stamps, as in `LegacyNode.PointUploads`.
- LegacyConfig.RegisterDevice: the first push sends the corrected stamps, as in `LegacyNode.PointUploads`.
- LegacyConfig.RegisterAt: the first push sends the corrected stamps, as in `LegacyNode.PointUploads`.
- LegacyConfig.RegisterAll: the first pushes send the corrected stamps, as in `LegacyNode.PointUploads`.
- LegacyConfig.MapConfiguration: the first pushes send the corrected stamps, as in `LegacyNode.PointUploads`.
- LegacySml.Reader.PollAt: the frame is cut with the corrected start search of the second Finding. As written, a start marker preceded by 0x1B or 0x01 is missed, and the poll reads a later frame or none.
- LegacySml.Reader.FirstBound: polls with the corrected start search, as `LegacySml.Reader.PollAt` does.
- LegacySml.Reader.Probe: polls with the corrected start search, as `LegacySml.Reader.PollAt` does.
- LegacySml.Reader.Poll: polls with the corrected start search, as `LegacySml.Reader.PollAt` does.
- LegacySml.ParsedSample.constructor: the legacy `Sample` class is not part of this model. Its `meter_id` is taken to default to None, which the `is not None` test of `device_lib/meter_sml.py` relies on.
- Scheduling.CastValue: a bytes value is an error in the model. The source converts only `str`; any other value comes back as `value * factor`, so bytes with the default factor 1 pass through unchanged, and bytes times a larger int factor are repeated. Factors are reals here, so neither is modelled.
- SmlReader.IdOf: a server-id value that is not text becomes the empty id. The source stores the raw value as `meter_id`, and a later `strip` of it raises TypeError; that case is not modelled.
- SmlReader.Parse: a non-text server-id is taken as the empty id, as in `SmlReader.IdOf`.
- LegacyConfig.HumanfriendlyTimeParser: the timespan parser is a parameter giving whole non-negative seconds. `humanfriendly.parse_timespan` returns a float (`"1.5s"` gives 1.5), which the source passes on without `int()`; fractional intervals from text are not modelled. `parse_timespan` also raises on text it cannot read; since meter_reader.py:266 parses the interval of every channel for every variable before the match test at :269, one bad interval makes that exception escape `map_configuration`, which the model, with a total parser, does not express.
- Volkszaehler.GetChannels: a `type` or `description` that the middleware sends as JSON null is read as the empty string, where `.get` returns None.
- Volkszaehler.Gateway.GetUploadInfo: the decoded answer always holds a list of tuples. When the middleware answers with positive `rows` but no `tuples` key, the source calls `sort` on None and the AttributeError escapes `get_upload_info`, since only IndexError is suppressed and the handlers catch only request errors; the model cannot express that answer and gives None for an empty list.
- LegacyGateway.LatestEntry: likewise the answer always holds a list of tuples. A positive `rows` without a `tuples` key makes the legacy `get` raise AttributeError, which the model cannot express.
- Volkszaehler.Gateway.UploadInfoOf: the decoded answer cannot hold a JSON null. A `"rows": null` makes `.get('rows', 0)` give None, and `None > 0` raises TypeError at pymeterreader/gateway/volkszaehler.py:81; a `"data": null` raises AttributeError there. Both escape `get_upload_info`, whose handlers catch only request errors; the model has no such answer, and reads a missing `rows` as 0.
- Volkszaehler.UploadInfoSpec: its if-and-only-if ranges over answers without a JSON-null `rows` or `data`, for the reason given for `Volkszaehler.Gateway.UploadInfoOf`.
- LegacyGateway.LatestEntrySpec: its characterisation ranges over answers without a JSON-null `data`. Such an answer makes `parsed.get('data').get('rows')` raise AttributeError at gateway/gateway.py:73, which escapes `get`; a JSON-null `rows` is the missing-`rows` TypeError the model does express.
- Volkszaehler.Describe: reads a JSON-null `type` or `description` as the empty string, as in `Volkszaehler.GetChannels`.
- LegacyConfig.RegisterAll: intervals are required to be non-negative, as for `LegacyConfig.MatchChannels`.
- LegacyConfig.RegisterAt: intervals are required to be non-negative, as for `LegacyConfig.MatchChannels`.
- LegacyConfig.RegisteredDevices: intervals are required to be non-negative, as for `LegacyConfig.MatchChannels`.
- LegacyConfig.UnsupportedStops: intervals are required to be non-negative, as for `LegacyConfig.MatchChannels`.

## Findings

| source | as written | input that shows it | evidently intended | confidence | as-written member | corrected member |
|---|---|---|---|---|---|---|
| pymeterreader/device_lib/meter_plain.py:56-72 | with `send_wakeup_zeros` equal to 0, `init_bytes` is never assigned, and decoding it raises UnboundLocalError | a reader configured with zero wakeup zeros, whatever the meter answers | without the wakeup there is no identification line; the response alone is read and parsed, since the identification text is only logged | not executed | PlainReader.ZeroWakeupRaises | PlainReader.ZeroWakeupReads |
| device_lib/meter_sml.py:79-84 | the start buffer is emptied by any byte other than 0x1B or 0x01 but not by a run of marker bytes, so a start marker preceded by 0x1B or 0x01 is never recognised | the bytes `01 1B 1B 1B 1B 01 01 01 01` | stop at the first place where the last eight bytes read are the start marker | not executed | LegacySmlScan.MissedStartExample | LegacySmlScan.FindStart |
| pymeterreader/device_lib/sensor_bme280.py:67-81 | an integer address is accepted, but `i2c_address` is assigned only in the text branches, so the reader has no address (AttributeError on first use) | `Bme280Reader(0x77)` | an integer address is used as the address | not executed | Bme280.IntegerAddress | Bme280.NewReader |
| pymeterreader/device_lib/sensor_bme280.py:41 | `dig_H6` is decoded as an unsigned byte | a calibration block whose last byte is 0xFF gives H6 = 255 | the BME280 datasheet's `dig_H6` is a signed char, so 0xFF is -1 | not executed | Bme280.H6SignDiffers | Bme280.DecodeCalibration |
| pymeterreader/meter_reader.py:165-169 | an interpolated point's time is the int last upload plus whole hours in seconds, and the legacy gateway sends an int `ts` unconverted, so it arrives as seconds where milliseconds are expected | last upload 1600000000 from the gateway, now 1600007200.0: the middle point goes out with `ts` 1600003600 | the point's `ts` is 1600003600000 milliseconds | not executed | LegacyNode.ShiftedIntSentAsSeconds | LegacyNode.PointStampMillis |
