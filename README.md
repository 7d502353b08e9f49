# Apache Turbine core, modelled in Dafny

This project models the self-contained logic inside Apache Turbine, the
servlet web-application framework, and proves properties of it. It has
one Dafny module per Java class:

- **`AssemblerBroker`** (`TurbineAssemblerBrokerService`): the registry
  from assembler type to its ordered list of factories.
  - `init` registers the configured factories type by type.
  - `getAssembler` asks a type's factories in registration order and
    returns the first assembler handed out.
- **`ActionLoader`**: the action cache in front of the broker.
  - A cache hit skips the broker.
  - A miss asks the broker and caches the result only when caching is on.
  - null, or an assembler that is not an Action, becomes a
    `ClassNotFoundException`.
- **`ValueParser`**: the parameter-store contract.
  - Names are trimmed and case-folded.
  - Each name holds the sequence of values added under it.
  - Typed getters parse int, long, byte and boolean values, with the
    documented defaults, nulls and zeros.
- **`DefaultParameterParser`**: filling the store from a request.
  - The request's parameters are added first, then the `/name/value/...`
    pairs of the path info.
  - It also keeps the per-name arrays of uploaded file items.
- **`UUIdGenerator`**: parsing of the `uuid.address` setting, and the id
  counter.
  - The setting is an IP address, a MAC address, or empty (random bytes),
    and gives six bytes.
  - An id is the base followed by two characters from a 64-character
    table.
- **`DynamicURIModel`** (`exec`): turns a FreeMarker argument list into a
  scheme, server name, port, path-info pairs and query pairs.
- **`TemplateDirectMapper`** (`doMapping`): template name to class name.
- **`StringKey`**: a key in which a null key equals nothing.
- **`SessionData`**: a plain session-scoped map.
- **`FormMessage`**: a form name, an ordered field-name list, a message,
  and the `toString` format.
- **`HsqlDB`** (`loadSqlFile`): the test helper's loop that splits an SQL
  script into `;`-terminated commands and skips `--` comments.

Shared modules:

- `Wrappers` holds `Option` and `Result`.
- `Errors` holds the exceptions the code throws.
- `JavaLang` holds the `java.lang` and `java.util` string operations the
  code relies on, with their own contracts:
  - `trim`, `indexOf`, `lastIndexOf`;
  - `StringTokenizer` splitting and `StringUtils.join`;
  - radix parsing with Java's accepted signs and ranges;
  - case folding, ASCII letters only (see "## Left out").

Modelling conventions:

- Java's `null` is `None`.
- A thrown exception is the `Failure` of a `Result`.
- A class whose methods update fields in place is a Dafny `class`. Its
  methods are proved against a pure specification function, and the
  properties are proved as lemmas about that function.

Where a doc comment and the code disagree, the model follows the code:

- `DynamicURIModel.exec` is documented as switching to query data on
  `"&"`, but the code tests for `"?"`. `DocExampleAsWritten` shows what
  the documented call really does. `DocExampleWithMarker` shows the same
  call with `"?"`.
- A `BaseValueParserTest` method (named `getString`, so JUnit never runs
  it) comments that `getString` returns the first value added, but
  asserts the last. Which stored value `getString` returns is therefore
  a class parameter (`Pick`), and every property holds for both choices.

## Model

| member | source | states |
|---|---|---|
| AssemblerBroker.WithRegistered | src/java/org/apache/turbine/services/assemblerbroker/TurbineAssemblerBrokerService.java:143-146 | the type's group becomes its old group followed by the new factories, duplicates kept; every other type keeps its group and its presence in the map |
| AssemblerBroker.WithRegisteredTwice | src/java/org/apache/turbine/services/assemblerbroker/TurbineAssemblerBrokerService.java:83-107 | registering factories one at a time equals registering the whole run at once |
| AssemblerBroker.ResolveFirstFound | src/java/org/apache/turbine/services/assemblerbroker/TurbineAssemblerBrokerService.java:159-171 | when factory i is the first to return an assembler (all before it return null), that assembler is the result |
| AssemblerBroker.ResolveFirstThrows | src/java/org/apache/turbine/services/assemblerbroker/TurbineAssemblerBrokerService.java:172-178 | when factory i is the first to throw, lookup fails with a TurbineException naming the name, the type and that factory's class, wrapping the cause |
| AssemblerBroker.ResolveNullIff | src/java/org/apache/turbine/services/assemblerbroker/TurbineAssemblerBrokerService.java:164-180 | the result is null (not an error) exactly when every factory returns null, the empty group included |
| AssemblerBroker.ResolveIgnoresLater | src/java/org/apache/turbine/services/assemblerbroker/TurbineAssemblerBrokerService.java:165-179 | once some factory answers (assembler or exception), the factories after it do not affect the result |
| AssemblerBroker.AssemblerBrokerService.constructor | src/java/org/apache/turbine/services/assemblerbroker/TurbineAssemblerBrokerService.java:52-53 | a new service is not initialised; its registry starts empty where the Java field starts null (see "## Left out") |
| AssemblerBroker.AssemblerBrokerService.RegisterBuildsPrefix | src/java/org/apache/turbine/services/assemblerbroker/TurbineAssemblerBrokerService.java:79-107 | the factories built are those of the longest prefix of configured names whose construction succeeds, in order; there is a failure exactly when some name is left; the failure is "Failed registering <type> factory: <name>" wrapping that name's construction error |
| AssemblerBroker.AssemblerBrokerService.RegisterTypesStopsAtFailure | src/java/org/apache/turbine/services/assemblerbroker/TurbineAssemblerBrokerService.java:116-133 | when type k is the first whose registration fails, init reports that failure and the types after it are never registered |
| AssemblerBroker.AssemblerBrokerService.RegisterTypesAllSucceed | src/java/org/apache/turbine/services/assemblerbroker/TurbineAssemblerBrokerService.java:116-128 | when every type registers, each (distinct) type's group is its old group followed by all its configured factories in order |
| AssemblerBroker.AssemblerBrokerService.RegisterTypesKeepsOthers | src/java/org/apache/turbine/services/assemblerbroker/TurbineAssemblerBrokerService.java:116-128 | registering a list of types leaves the group of any type not in the list unchanged |
| AssemblerBroker.AssemblerBrokerService.GetFactoryGroup | src/java/org/apache/turbine/services/assemblerbroker/TurbineAssemblerBrokerService.java:61-68 | returns the type's group; a type without one gets an empty group stored, so even this read changes the registry |
| AssemblerBroker.AssemblerBrokerService.RegisterFactory | src/java/org/apache/turbine/services/assemblerbroker/TurbineAssemblerBrokerService.java:143-146 | appends the factory to the type's group; no other group changes |
| AssemblerBroker.AssemblerBrokerService.RegisterFactories | src/java/org/apache/turbine/services/assemblerbroker/TurbineAssemblerBrokerService.java:76-108 | the loop registers exactly the built prefix of the configured factories and returns the first construction failure, keeping those registered before it |
| AssemblerBroker.AssemblerBrokerService.Init | src/java/org/apache/turbine/services/assemblerbroker/TurbineAssemblerBrokerService.java:116-135 | a fresh registry filled in the order ACTION, SCREEN, NAVIGATION, LAYOUT, PAGE, SCHEDULEDJOB; a failure becomes an InitializationException and the service is not marked initialised; success marks it |
| AssemblerBroker.AssemblerBrokerService.GetAssembler | src/java/org/apache/turbine/services/assemblerbroker/TurbineAssemblerBrokerService.java:159-181 | the loop's result is the first-answer resolution over the type's group; the registry only gains an empty group for an unknown type |
| AssemblerBroker.AssemblerBrokerService.InitRegistersEveryType | src/java/org/apache/turbine/services/assemblerbroker/TurbineAssemblerBrokerService.java:116-135 | when every configured factory can be built, init succeeds and each type's group is exactly its configured factories in order |
| ActionLoader.SearchPath | src/java/org/apache/turbine/modules/ActionLoader.java:180-188 | the reported package list is module.packages with the base package appended only when absent: it always contains the base package and starts with module.packages |
| ActionLoader.NotFoundMessage | src/java/org/apache/turbine/modules/ActionLoader.java:190-193 | the ClassNotFoundException message contains the requested name right after its fixed prefix |
| ActionLoader.CacheHitSkipsBroker | src/java/org/apache/turbine/modules/ActionLoader.java:152-156 | with caching on and the name cached, the cached action is returned, the cache is unchanged and the broker is not asked |
| ActionLoader.NotAnActionIsNotFound | src/java/org/apache/turbine/modules/ActionLoader.java:161-174 | a broker result that is not an Action (the ClassCastException) is treated exactly like null, which is a failure |
| ActionLoader.FromBrokerCases | src/java/org/apache/turbine/modules/ActionLoader.java:161-194 | the lookup succeeds exactly when the broker returns an Action, and then returns it; a broker exception propagates unchanged; any other answer is ClassNotFoundException with the not-found message |
| ActionLoader.CacheWrittenOnlyWhenEnabled | src/java/org/apache/turbine/modules/ActionLoader.java:195-199 | with caching off the cache is never written and the broker is always asked; otherwise a lookup writes at most its own name, with the action it returns |
| ActionLoader.SecondLookupIsCached | src/java/org/apache/turbine/modules/ActionLoader.java:146-202 | with caching on, after a successful lookup a second lookup of the same name returns the identical action without asking the broker, whatever the broker holds by then |
| ActionLoader.MissReturnsFirstFactoryAction | src/java/org/apache/turbine/modules/ActionLoader.java:159-172 | on a miss, the action returned is the first one the broker's action factories hand out, queried under Action.NAME |
| ActionLoader.ActionLoader.constructor | src/java/org/apache/turbine/modules/ActionLoader.java:56-71 | a new loader has an empty cache |
| ActionLoader.ActionLoader.AddInstance | src/java/org/apache/turbine/modules/ActionLoader.java:79-85 | stores name to action only when caching is on |
| ActionLoader.ActionLoader.GetInstance | src/java/org/apache/turbine/modules/ActionLoader.java:146-202 | result and new cache are those of the cache-or-broker specification; only Actions are ever returned or cached; the broker's registry changes only as its own lookup does |
| ActionLoader.ActionLoader.GetAssembler | src/java/org/apache/turbine/modules/ActionLoader.java:124-128 | the same result and cache as getInstance |
| ActionLoader.ActionLoader.Exec | src/java/org/apache/turbine/modules/ActionLoader.java:94-112 | looks the action up, then performs it; an exception from either step is the result unwrapped |
| ValueParser.ConvertIdempotent | src/java/org/apache/turbine/util/parser/ValueParser.java:134-142 | converting (trim then fold) a converted name gives it back, so stored names are fixed points |
| ValueParser.ConvertIgnoresCase | src/java/org/apache/turbine/util/parser/ValueParser.java:214-222 | with lower folding, names equal up to letter case convert to the same key |
| ValueParser.ParseNumber | src/java/org/apache/turbine/util/parser/ValueParser.java:464-500 | a parsed int, long or byte lies in that Java type's range |
| ValueParser.ParseNumberOfToString | src/test/org/apache/turbine/util/BaseValueParserTest.java:185-195 | a number stored as its decimal text parses back to itself |
| ValueParser.ParseNumberRejectsLetter | src/test/org/apache/turbine/util/BaseValueParserTest.java:180-183 | any value containing a letter (such as "a") is unparsable |
| ValueParser.ParseBooleanMeaning | src/java/org/apache/turbine/util/parser/ValueParser.java:295-322 | parsing ignores letter case; a value is true exactly when it equals one of true, on, 1, yes up to case, and false exactly when it equals one of false, off, 0, no up to case |
| ValueParser.ParseBooleanExamples | src/test/org/apache/turbine/util/BaseValueParserTest.java:556-598 | the tested mixed-case values "trUe", "yEs", "1", "oN" read true; "falSe", "nO", "0", "oFf" read false; "a" reads null |
| ValueParser.ParseEach | src/java/org/apache/turbine/util/parser/ValueParser.java:554-561 | the object array has one entry per stored value, entry i being value i parsed (null where unparsable) |
| ValueParser.OrZero | src/java/org/apache/turbine/util/parser/ValueParser.java:535-542 | the primitive array has one entry per object entry, null replaced by 0 in place |
| ValueParser.Appended | src/java/org/apache/turbine/util/parser/ValueParser.java:176-202 | after adding, the key holds its old values followed by the new ones; every other key is unchanged |
| ValueParser.ValueParser.constructor | src/java/org/apache/turbine/util/parser/ValueParser.java:119-127 | a new parser holds no names and has the given encoding and folding |
| ValueParser.ValueParser.GetStrings | src/java/org/apache/turbine/util/parser/ValueParser.java:711-718 | non-null exactly when the converted name is present |
| ValueParser.ValueParser.GetString | src/java/org/apache/turbine/util/parser/ValueParser.java:668-675 | non-null exactly when the name is present and holds a value; the value returned is one stored under the name: the only one when there is one, the first or the last (as configured) otherwise |
| ValueParser.ValueParser.GetStringOr | src/java/org/apache/turbine/util/parser/ValueParser.java:691-699 | the value getString reads when there is one, the default otherwise (so always the default for an absent name) |
| ValueParser.ValueParser.GetNumberObject | src/java/org/apache/turbine/util/parser/ValueParser.java:493-500 | null when absent; otherwise the value getString reads, parsed as the type (null when unparsable or out of range); a name holding one value reads as that value parsed |
| ValueParser.ValueParser.GetNumberObjectOr | src/java/org/apache/turbine/util/parser/ValueParser.java:483-491 | the object getter's number whenever it has one, the default otherwise |
| ValueParser.ValueParser.GetNumber | src/java/org/apache/turbine/util/parser/ValueParser.java:464-481 | the object getter's number whenever it has one, the default (0 when none is given) otherwise |
| ValueParser.ValueParser.GetNumberObjects | src/java/org/apache/turbine/util/parser/ValueParser.java:554-561 | null exactly when absent, otherwise one entry per stored value |
| ValueParser.ValueParser.GetNumbers | src/java/org/apache/turbine/util/parser/ValueParser.java:535-542 | null exactly when absent, otherwise one entry per stored value |
| ValueParser.ValueParser.NumberArraysByPosition | src/test/org/apache/turbine/util/BaseValueParserTest.java:197-207 | in the array getters, entry i is value i parsed, or null / 0 when that value alone is unparsable; other entries are unaffected |
| ValueParser.ValueParser.GetBooleanObject | src/java/org/apache/turbine/util/parser/ValueParser.java:295-307 | null when absent; otherwise the boolean the value getString reads stands for, null when it stands for none; a name holding one value reads as that value's boolean |
| ValueParser.ValueParser.GetBooleanObjectOr | src/java/org/apache/turbine/util/parser/ValueParser.java:309-322 | the object getter's boolean whenever it has one, the default otherwise |
| ValueParser.ValueParser.GetBoolean | src/java/org/apache/turbine/util/parser/ValueParser.java:255-272 | the object getter's boolean whenever it has one, the default (false when none is given) otherwise |
| ValueParser.ValueParser.NumberReadsBack | src/test/org/apache/turbine/util/BaseValueParserTest.java:123-224 | a name holding only the decimal text of an in-range n reads back as n from the int, long and byte getters, object, object-with-default and primitive alike, whatever the defaults |
| ValueParser.ValueParser.BooleanReadsBack | src/java/org/apache/turbine/util/parser/ValueParser.java:255-322 | a name holding only s reads back as the boolean s stands for; getBoolean(name, false) is true exactly when s is true, on, 1 or yes up to case |
| ValueParser.ValueParser.BooleanTestValues | src/test/org/apache/turbine/util/BaseValueParserTest.java:525-598 | with its value stored alone, "trUe" (the boolean test) reads true and "nO" (the boolean-object test) reads false, whatever the default |
| ValueParser.ValueParser.StringReadsBack | src/java/org/apache/turbine/util/parser/ValueParser.java:667-699 | a name holding only s reads back as s from getString with or without a default |
| ValueParser.ValueParser.ContainsKeyIgnoresCase | src/java/org/apache/turbine/util/parser/ValueParser.java:214-222 | with lower folding, containsKey gives the same answer for names equal up to case |
| ValueParser.ValueParser.Clear | src/java/org/apache/turbine/util/parser/ValueParser.java:119-122 | no name is left; the encoding is kept |
| ValueParser.ValueParser.SetCharacterEncoding | src/java/org/apache/turbine/util/parser/ValueParser.java:124-127 | sets the encoding and leaves the parameters alone |
| ValueParser.ValueParser.Add | src/java/org/apache/turbine/util/parser/ValueParser.java:176-182 | the converted name's values gain value at the end and no other name changes; a new name holds exactly [value]; getString then reads value when the last value is picked, and what it read before when the first is picked |
| ValueParser.ValueParser.Append | src/java/org/apache/turbine/util/parser/ValueParser.java:184-192 | the value goes after those already stored under the name |
| ValueParser.ValueParser.AddAll | src/java/org/apache/turbine/util/parser/ValueParser.java:194-202 | the loop adds the values one by one: the name's values gain all of them, in order |
| ValueParser.ValueParser.AddNumber | src/java/org/apache/turbine/util/parser/ValueParser.java:152-174 | the number is stored as its text, so both numeric array getters end with that number |
| ValueParser.ValueParser.Remove | src/java/org/apache/turbine/util/parser/ValueParser.java:204-212 | returns the values mapped before, or null when none; afterwards the name is absent and other names are unchanged |
| ValueParser.ValueParser.SetString | src/java/org/apache/turbine/util/parser/ValueParser.java:701-709 | the name now holds exactly the one value, and getString returns it |
| ValueParser.ValueParser.SetStrings | src/java/org/apache/turbine/util/parser/ValueParser.java:730-738 | the name now holds exactly the given values |
| ValueParser.UnparsableElementKeepsItsPlace | src/test/org/apache/turbine/util/BaseValueParserTest.java:241-252 | the tested values "1", "a", "3" read as 1, null, 3 from the object getter and 1, 0, 3 from the primitive getter |
| DefaultParameterParser.PathPairsAreDecodedPairs | src/java/org/apache/turbine/util/parser/DefaultParameterParser.java:206-228 | every pair added from the path info has a non-empty name and is a decoded name token followed by its decoded value token |
| DefaultParameterParser.PathPairsOfFlatten | src/java/org/apache/turbine/util/parser/DefaultParameterParser.java:210-228 | tokens written name, value, name, value... (names non-empty, decoding the identity) yield exactly those pairs in order |
| DefaultParameterParser.PathInfoRoundTrip | src/java/org/apache/turbine/util/parser/DefaultParameterParser.java:206-228 | a path info "n1/v1/n2/v2..." built from pairs without empty tokens or slashes, with or without a leading "/", gives those pairs back |
| DefaultParameterParser.PathPairsStopAtFailure | src/java/org/apache/turbine/util/parser/DefaultParameterParser.java:206-236 | a token that fails to decode stops the parsing silently: the pairs are those of the tokens before it |
| DefaultParameterParser.PathPairsDropTrailingName | src/java/org/apache/turbine/util/parser/DefaultParameterParser.java:210-227 | a trailing name without a value adds nothing |
| DefaultParameterParser.DefaultParameterParser.constructor | src/java/org/apache/turbine/util/parser/DefaultParameterParser.java:109-113 | a new parser has no request, no upload data and no file items |
| DefaultParameterParser.DefaultParameterParser.SetRequest | src/java/org/apache/turbine/util/parser/DefaultParameterParser.java:164-249 | clears the parameters and upload data, takes the request's encoding or PARAMETER_ENCODING_DEFAULT, then adds all request parameters followed by the path-info pairs; the file items are kept |
| DefaultParameterParser.DefaultParameterParser.AddRequestParameters | src/java/org/apache/turbine/util/parser/DefaultParameterParser.java:196-202 | the loop adds each request parameter under its converted name with all its values, in enumeration order |
| DefaultParameterParser.DefaultParameterParser.AddPathInfo | src/java/org/apache/turbine/util/parser/DefaultParameterParser.java:206-236 | the isNameTok loop adds exactly the path-info pairs of the specification, in order |
| DefaultParameterParser.DefaultParameterParser.GetFileItems | src/java/org/apache/turbine/util/parser/DefaultParameterParser.java:333-345 | a stored item array is never empty |
| DefaultParameterParser.DefaultParameterParser.GetFileItem | src/java/org/apache/turbine/util/parser/DefaultParameterParser.java:305-323 | null exactly when no array is stored, otherwise its element 0 |
| DefaultParameterParser.DefaultParameterParser.AppendFileItem | src/java/org/apache/turbine/util/parser/DefaultParameterParser.java:280-296 | a new name gets a one-item array; an existing one its old items in order followed by the new item; no other name changes |
| DefaultParameterParser.DefaultParameterParser.Dispose | src/java/org/apache/turbine/util/parser/DefaultParameterParser.java:133-139 | request and upload data become null and the file items are emptied |
| UUIdGenerator.ParseOctet | src/java/org/apache/turbine/util/db/UUIdGenerator.java:121-144 | a parsed octet lies in the signed byte range |
| UUIdGenerator.ParseOctets | src/java/org/apache/turbine/util/db/UUIdGenerator.java:119-124 | the tokens parse exactly when each one does, giving one byte per token in order |
| UUIdGenerator.RandomAddress | src/java/org/apache/turbine/util/db/UUIdGenerator.java:95-98 | the random address is six signed bytes |
| UUIdGenerator.IpAddress | src/java/org/apache/turbine/util/db/UUIdGenerator.java:102-129 | a parsed IP address is six signed bytes |
| UUIdGenerator.MacAddress | src/java/org/apache/turbine/util/db/UUIdGenerator.java:131-150 | a parsed MAC address is six signed bytes |
| UUIdGenerator.AddressIsSixBytes | src/java/org/apache/turbine/util/db/UUIdGenerator.java:74-156 | whatever the setting, a successfully parsed address is six signed bytes |
| UUIdGenerator.IpAddressBytes | src/java/org/apache/turbine/util/db/UUIdGenerator.java:102-129 | with '.' after the first char, anything but 4 tokens fails; it succeeds exactly when all 4 tokens are hexadecimal ints; then bytes 0 and 1 are (byte) 255 and bytes 2..5 the tokens truncated to bytes |
| UUIdGenerator.MacAddressBytes | src/java/org/apache/turbine/util/db/UUIdGenerator.java:131-150 | otherwise with ':' after the first char, anything but 6 tokens fails; it succeeds exactly when each token is a hexadecimal signed byte, giving those bytes |
| UUIdGenerator.OtherAddressRejected | src/java/org/apache/turbine/util/db/UUIdGenerator.java:152-155 | a non-empty setting with neither separator after its first char is rejected |
| UUIdGenerator.MacTextParsing | src/java/org/apache/turbine/util/db/UUIdGenerator.java:131-150 | six plain octets joined by ':' parse exactly as their octets do |
| UUIdGenerator.HighOctetRejected | src/java/org/apache/turbine/util/db/UUIdGenerator.java:144 | Byte.parseByte rejects "AE" (174), which an unsigned reading accepts |
| UUIdGenerator.MacHighOctetRejected | src/java/org/apache/turbine/util/db/UUIdGenerator.java:144 | as written, every MAC address whose first octet is AE, the error message's own example, is rejected |
| UUIdGenerator.UnsignedMacAccepted | src/java/org/apache/turbine/util/db/UUIdGenerator.java:131-150 | read as unsigned, every MAC address of six two-digit hexadecimal octets is accepted, each stored as its value truncated to a byte |
| UUIdGenerator.CountCharDecodes | src/java/org/apache/turbine/util/db/UUIdGenerator.java:222-230 | the 64-entry table is injective: each entry reads back as its position |
| UUIdGenerator.SuffixDecodes | src/java/org/apache/turbine/util/db/UUIdGenerator.java:212-215 | the two counter chars of index 0..4095 read back as index / 64 and index % 64 |
| UUIdGenerator.SuffixInjective | src/java/org/apache/turbine/util/db/UUIdGenerator.java:212-215 | different indices give different suffixes |
| UUIdGenerator.BaseIdOf | src/java/org/apache/turbine/util/db/UUIdGenerator.java:173-175 | the new base has the length of the encoded text and contains no '/' and no '*' |
| UUIdGenerator.NextIdBelowLimit | src/java/org/apache/turbine/util/db/UUIdGenerator.java:196-216 | below the limit, getId increments the counter and returns the base text followed by the suffix of the new counter |
| UUIdGenerator.NextIdOverflows | src/java/org/apache/turbine/util/db/UUIdGenerator.java:196-214 | the call that takes the counter past 4095 renews the base and resets the counter, yet indexes countChar[64] and throws |
| UUIdGenerator.NextIdFixedInBounds | src/java/org/apache/turbine/util/db/UUIdGenerator.java:194-217 | the intended getId keeps the counter in 0..4095, fails only when renewing the base fails, and returns its base followed by the suffix of its counter |
| UUIdGenerator.FixedIdsDistinct | src/java/org/apache/turbine/util/db/UUIdGenerator.java:212-216 | ids with the same base and different counters differ |
| UUIdGenerator.FirstIdUsesNull | src/java/org/apache/turbine/util/db/UUIdGenerator.java:75 | as written, the first id of a fresh generator is "null" plus two chars, six chars long |
| UUIdGenerator.FirstIdUsesGeneratedBase | src/java/org/apache/turbine/util/db/UUIdGenerator.java:159-176 | with the base generated up front, the first id is that base plus the suffix of 1 |
| UUIdGenerator.UUIdGenerator.constructor | src/java/org/apache/turbine/util/db/UUIdGenerator.java:74-76 | six zero bytes, a null base and counter 0 |
| UUIdGenerator.UUIdGenerator.Create | src/java/org/apache/turbine/util/db/UUIdGenerator.java:81-157 | the constructor: a generator holding exactly the parsed address, or a TurbineException with the error string, the setting and the parse failure as cause |
| UUIdGenerator.UUIdGenerator.FillAddress | src/java/org/apache/turbine/util/db/UUIdGenerator.java:86-156 | fills the array with exactly the bytes of the address specification, or reports its failure |
| UUIdGenerator.UUIdGenerator.FillRandom | src/java/org/apache/turbine/util/db/UUIdGenerator.java:95-98 | the loop stores each sample truncated to a byte |
| UUIdGenerator.UUIdGenerator.FillIp | src/java/org/apache/turbine/util/db/UUIdGenerator.java:102-130 | stores 255, 255 and the four parsed tokens, matching the IP specification, or its failure |
| UUIdGenerator.UUIdGenerator.FillMac | src/java/org/apache/turbine/util/db/UUIdGenerator.java:131-151 | stores the six parsed tokens, matching the MAC specification, or its failure |
| UUIdGenerator.UUIdGenerator.FillOctets | src/java/org/apache/turbine/util/db/UUIdGenerator.java:117-129 | the tokenizer loop succeeds exactly when every token parses, then stores them from the start index in order, leaving the bytes before it alone |
| UUIdGenerator.UUIdGenerator.GetId | src/java/org/apache/turbine/util/db/UUIdGenerator.java:194-217 | the new counter, base and result are those of the getId specification (overflow included) |
| DynamicURIModel.Pairs | src/java/org/apache/turbine/services/freemarker/DynamicURIModel.java:144-174 | once switched to query data, no later pair is path info |
| DynamicURIModel.PairsWithoutMarker | src/java/org/apache/turbine/services/freemarker/DynamicURIModel.java:147-173 | without "?" the arguments pair up in order (argument 2k with 2k+1), all on one side, and a trailing unpaired argument is dropped |
| DynamicURIModel.QueryMarkerSwitches | src/java/org/apache/turbine/services/freemarker/DynamicURIModel.java:150-155 | "?" at the start of a pair is consumed and every later pair becomes query data |
| DynamicURIModel.MarkerAsValue | src/java/org/apache/turbine/services/freemarker/DynamicURIModel.java:162-173 | "?" as the second of a pair is an ordinary value |
| DynamicURIModel.FoldPairs | src/java/org/apache/turbine/services/freemarker/DynamicURIModel.java:144-174 | the firstOfPair/queryData loop appends exactly the pairs of the pairing specification |
| DynamicURIModel.Head | src/java/org/apache/turbine/services/freemarker/DynamicURIModel.java:113-143 | the index the pairs start at lies within the arguments |
| DynamicURIModel.ServerWithPort | src/java/org/apache/turbine/services/freemarker/DynamicURIModel.java:126-135 | two colons far enough apart give the port branch |
| DynamicURIModel.ExecWithServerPart | src/java/org/apache/turbine/services/freemarker/DynamicURIModel.java:116-139 | with a server part, the template is the second argument and the pairs start at the third |
| DynamicURIModel.ExecSchemeOnly | src/java/org/apache/turbine/services/freemarker/DynamicURIModel.java:116-122 | "http..." without ':' is the scheme only |
| DynamicURIModel.ExecWithServer | src/java/org/apache/turbine/services/freemarker/DynamicURIModel.java:123-130 | the scheme is the text before ':' and the server name runs from 3 chars after it to the end |
| DynamicURIModel.ExecWithPort | src/java/org/apache/turbine/services/freemarker/DynamicURIModel.java:131-135 | with a second ':', the server name ends there and the rest is the port, or a NumberFormatException |
| DynamicURIModel.ExecWithPortPart | src/java/org/apache/turbine/services/freemarker/DynamicURIModel.java:131-138 | the port branch's URI, or its NumberFormatException |
| DynamicURIModel.ExecShortServer | src/java/org/apache/turbine/services/freemarker/DynamicURIModel.java:129-133 | a server part too short for "//" after the ':' makes substring throw |
| DynamicURIModel.ExecTemplateOnly | src/java/org/apache/turbine/services/freemarker/DynamicURIModel.java:140-143 | any other first argument is the template with every '/' made ','; pairs start at the second argument |
| DynamicURIModel.ExecMissingArguments | src/java/org/apache/turbine/services/freemarker/DynamicURIModel.java:114-137 | no argument, or "http" with no template after it, throws on args.get |
| DynamicURIModel.FivePairArgs | src/java/org/apache/turbine/services/freemarker/DynamicURIModel.java:147-173 | of five arguments, a "?" third sends the last two to the query data; otherwise the third and fourth pair up and the fifth is dropped |
| DynamicURIModel.DocExampleAsWritten | src/java/org/apache/turbine/services/freemarker/DynamicURIModel.java:97-103 | the documented call with "&" gives path info template, from=LA, &=to, drops "SF" and has no query data |
| DynamicURIModel.DocExampleWithMarker | src/java/org/apache/turbine/services/freemarker/DynamicURIModel.java:150-166 | the same call with "?" gives path info template, from=LA and query data to=SF |
| DynamicURIModel.DocExamplePairs | src/java/org/apache/turbine/services/freemarker/DynamicURIModel.java:144-174 | the pairs of the documented call for both markers |
| DynamicURIModel.ExecLoop | src/java/org/apache/turbine/services/freemarker/DynamicURIModel.java:110-176 | exec with its loop computes exactly the URI of the specification, or the same exception |
| TemplateDirectMapper.StripExtensionRemovesSuffix | src/java/org/apache/turbine/services/template/mapper/TemplateDirectMapper.java:99-101 | the result is a prefix of the component: all of it when it has no '.', otherwise everything before its last '.' |
| TemplateDirectMapper.MappedComponentsShape | src/java/org/apache/turbine/services/template/mapper/TemplateDirectMapper.java:94-102 | as many output components as non-empty input parts; all but the last copied, the last without its extension; no part fails on index -1 |
| TemplateDirectMapper.DoMappingFailsIff | src/java/org/apache/turbine/services/template/mapper/TemplateDirectMapper.java:94-97 | doMapping fails exactly on templates made of separators only, the empty one included |
| TemplateDirectMapper.DoMappingSplitsBack | src/java/org/apache/turbine/services/template/mapper/TemplateDirectMapper.java:104-105 | with a one-char separator, the class name splits back into the mapped components |
| TemplateDirectMapper.ThreePartComponents | src/java/org/apache/turbine/services/template/mapper/TemplateDirectMapper.java:94-102 | "a,b,c.ext" has components a, b, c |
| TemplateDirectMapper.ThreePartMapping | src/java/org/apache/turbine/services/template/mapper/TemplateDirectMapper.java:84-91 | "a,b,c.ext" maps to a, b, c joined by the separator, as "about,directions,Driving.vm" to "about.directions.Driving" |
| StringKey.StringKey.constructor | src/java/org/apache/turbine/om/StringKey.java:70-72 | the key starts null |
| StringKey.StringKey.FromString | src/java/org/apache/turbine/om/StringKey.java:77-80 | the key is the given string |
| StringKey.StringKey.FromKey | src/java/org/apache/turbine/om/StringKey.java:85-88 | the key is the other key's value |
| StringKey.StringKey.GetString | src/java/org/apache/turbine/om/StringKey.java:115-118 | the key as stored, null included |
| StringKey.StringKey.SetValue | src/java/org/apache/turbine/om/StringKey.java:93-96 | the key becomes the string |
| StringKey.StringKey.SetValueFromKey | src/java/org/apache/turbine/om/StringKey.java:102-108 | copies the other key's value; a null argument makes the key null |
| StringKey.StringKey.NullEqualsNothing | src/java/org/apache/turbine/om/StringKey.java:120-129 | a null key equals nothing, not even itself |
| StringKey.StringKey.EqualsString | src/java/org/apache/turbine/om/StringKey.java:131-134 | with a key, equals(String s) holds exactly when the key is s, exactly when toString is s |
| StringKey.StringKey.NullKeyPrintsEmpty | src/java/org/apache/turbine/om/StringKey.java:146-153 | a null key prints as "" yet does not equal "" |
| StringKey.StringKey.EqualsSymmetric | src/java/org/apache/turbine/om/StringKey.java:137-141 | equality between StringKeys is symmetric, and reflexive exactly for non-null keys |
| StringKey.StringKey.EqualsTransitive | src/java/org/apache/turbine/om/StringKey.java:137-141 | equal StringKeys agree on every argument |
| StringKey.StringKey.OtherIsUnequal | src/java/org/apache/turbine/om/StringKey.java:125-144 | an argument that is neither String nor StringKey is unequal |
| StringKey.CopyEqualsOriginal | src/java/org/apache/turbine/om/StringKey.java:85-88 | a copy has the original's value and equals it exactly when that value is not null |
| SessionData.Lookup | src/java/org/apache/turbine/services/pull/util/SessionData.java:104-107 | a non-null result is what the key stores; a missing key gives null |
| SessionData.LookupAfterPut | src/java/org/apache/turbine/services/pull/util/SessionData.java:127-130 | after put, get returns the new value for its key and the old value for any other |
| SessionData.NullLooksMissing | src/java/org/apache/turbine/services/pull/util/SessionData.java:95-118 | a stored null and a missing key both get null; only containsKey tells them apart |
| SessionData.SessionData.constructor | src/java/org/apache/turbine/services/pull/util/SessionData.java:74-75 | before init there is no storage |
| SessionData.SessionData.Init | src/java/org/apache/turbine/services/pull/util/SessionData.java:82-85 | a fresh, empty storage |
| SessionData.SessionData.Refresh | src/java/org/apache/turbine/services/pull/util/SessionData.java:90-93 | changes nothing |
| SessionData.SessionData.Get | src/java/org/apache/turbine/services/pull/util/SessionData.java:104-107 | the map lookup, null for missing keys and stored nulls |
| SessionData.SessionData.ContainsKey | src/java/org/apache/turbine/services/pull/util/SessionData.java:115-118 | true exactly for stored keys; false implies get returns null |
| SessionData.SessionData.Put | src/java/org/apache/turbine/services/pull/util/SessionData.java:127-130 | get returns the value and containsKey holds, even for null; every other key reads as before |
| SessionData.SessionData.Clear | src/java/org/apache/turbine/services/pull/util/SessionData.java:135-138 | no key is left |
| SessionData.SessionData.Keys | src/java/org/apache/turbine/services/pull/util/SessionData.java:145-148 | the iterated keys are exactly those containsKey accepts |
| FormMessage.NamesAppend | src/java/org/apache/turbine/util/FormMessage.java:136-138 | the field-name text of two lists is that of the first followed by that of the second |
| FormMessage.NamesLength | src/java/org/apache/turbine/util/FormMessage.java:136-138 | each field name adds at least one char |
| FormMessage.NamesSnoc | src/java/org/apache/turbine/util/FormMessage.java:136-138 | one more field name adds its text and a space at the end of the names |
| FormMessage.RenderedAfterAdd | src/java/org/apache/turbine/util/FormMessage.java:123-142 | after setFieldName, toString gains the name and a space just before the message part |
| FormMessage.RenderedFrame | src/java/org/apache/turbine/util/FormMessage.java:133-142 | toString starts with the form-name part, ends with the message part, and has at least one char per field name between them |
| FormMessage.FormMessage.constructor | src/java/org/apache/turbine/util/FormMessage.java:24-27 | no form name, no field name, no message |
| FormMessage.FormMessage.WithForm | src/java/org/apache/turbine/util/FormMessage.java:34-38 | the form name only |
| FormMessage.FormMessage.WithField | src/java/org/apache/turbine/util/FormMessage.java:46-51 | the form name and exactly one field name |
| FormMessage.FormMessage.WithMessage | src/java/org/apache/turbine/util/FormMessage.java:60-66 | the form name, exactly one field name and the message |
| FormMessage.FormMessage.GetFieldNames | src/java/org/apache/turbine/util/FormMessage.java:93-96 | a fresh array of every added name in insertion order, duplicates kept |
| FormMessage.FormMessage.SetMessage | src/java/org/apache/turbine/util/FormMessage.java:103-106 | replaces the message and nothing else |
| FormMessage.FormMessage.SetFormName | src/java/org/apache/turbine/util/FormMessage.java:113-116 | replaces the form name and nothing else |
| FormMessage.FormMessage.SetFieldName | src/java/org/apache/turbine/util/FormMessage.java:123-126 | appends one field name, duplicates kept; nothing else changes |
| FormMessage.FormMessage.ToString | src/java/org/apache/turbine/util/FormMessage.java:133-142 | the StringBuilder loop yields "formName:" form ", fieldNames:" each name and a space ", message:" message |
| HsqlDB.First | src/test/org/apache/turbine/test/HsqlDB.java:77-94 | a pass executes at most one command and its target position stays within the text |
| HsqlDB.ScriptThrows | src/test/org/apache/turbine/test/HsqlDB.java:102 | a target position that leaves fewer than two chars makes substring throw after the pass's own attempt |
| HsqlDB.ScriptResumes | src/test/org/apache/turbine/test/HsqlDB.java:102 | otherwise the script continues with the text two chars past the target position |
| HsqlDB.NoSemicolonRunsNothing | src/test/org/apache/turbine/test/HsqlDB.java:77 | text without ';' runs nothing: trailing text without ';' is never executed |
| HsqlDB.FirstOfStatement | src/test/org/apache/turbine/test/HsqlDB.java:79-94 | a statement's pass executes the trimmed text up to and including the first ';' and targets that ';' |
| HsqlDB.StatementStep | src/test/org/apache/turbine/test/HsqlDB.java:77-102 | a statement is executed and the rest resumes two chars after its ';' |
| HsqlDB.CommentStep | src/test/org/apache/turbine/test/HsqlDB.java:81-89 | a "--" command is not executed; the rest resumes just past the first newline |
| HsqlDB.FirstIgnoresFailures | src/test/org/apache/turbine/test/HsqlDB.java:92-99 | whether the statement fails changes neither the command nor the target of a pass |
| HsqlDB.FailuresAreSkipped | src/test/org/apache/turbine/test/HsqlDB.java:92-102 | failing statements are logged and skipped: the same commands run in the same order and the script ends the same way |
| HsqlDB.TrimOfStatement | src/test/org/apache/turbine/test/HsqlDB.java:79 | trimming text that ends with its only ';' keeps that ';' as the last char and adds none |
| HsqlDB.CommandEndsAtSemicolon | src/test/org/apache/turbine/test/HsqlDB.java:77-79 | the command at the first ';' is non-empty and ends with its one ';' |
| HsqlDB.FirstIsStatement | src/test/org/apache/turbine/test/HsqlDB.java:79-99 | a pass executes only a statement ending with its one ';', not a comment, marked failed exactly when it throws |
| HsqlDB.AttemptsAreStatements | src/test/org/apache/turbine/test/HsqlDB.java:77-103 | every executed command ends with its one ';' and is not a comment, and is marked failed exactly when it throws |
| HsqlDB.LastSemicolonThrows | src/test/org/apache/turbine/test/HsqlDB.java:102 | as written, a script whose first ';' is its last char executes that statement and then throws on substring |
| HsqlDB.LastSemicolonExample | src/test/org/apache/turbine/test/HsqlDB.java:102 | the script "x;" executes "x;" and then throws |
| HsqlDB.BoundedAgrees | src/test/org/apache/turbine/test/HsqlDB.java:77-103 | the loop that resumes at the end of the text instead of throwing makes exactly the same attempts |
| HsqlDB.FirstPass | src/test/org/apache/turbine/test/HsqlDB.java:79-89 | the loop body's command, comment test and target position are those of the pass specification |
| HsqlDB.Advance | src/test/org/apache/turbine/test/HsqlDB.java:77-103 | one pass of the loop keeps its invariant: the attempts made so far followed by the rest's attempts are the whole script's |
| HsqlDB.LoadSqlFile | src/test/org/apache/turbine/test/HsqlDB.java:70-105 | the loop's attempts and final exception are exactly those of the script specification |

## Left out

- `AssemblerBroker.AssemblerBrokerService.constructor`: the Java
  `factories` field is null until `init` assigns it, so calling
  `registerFactory`, `getFactoryGroup` or `getAssembler` before `init`
  throws a `NullPointerException`. The model starts with an empty
  registry instead, and those methods answer normally before `Init`.
- `Factory` and the factory constructor are opaque functions. Class
  loading, reflection and the real factories are not modelled.
- `Error`s thrown by a factory are not modelled separately:
  - `AssemblerBroker.AssemblerBrokerService.GetAssembler` catches only
    `Exception`, so a `java.lang.Error` from a factory would propagate
    unwrapped. The model wraps every factory failure.
  - `registerFactories` rethrows `ThreadDeath` and `OutOfMemoryError`. The
    model treats every construction failure as wrapped.
- Logging everywhere (`log.info`, `log.debug`, `log.warn`) is left out,
  because it has no effect on results.
- Real configuration values:
  - `AssemblerBrokerService.*_TYPE`, `Action.NAME`,
    `TurbineConstants.PARAMETER_ENCODING_DEFAULT`,
    `TEMPLATE_PARTS_SEPARATOR` and `EXTENSION_SEPARATOR` are defined
    outside the modelled files. They are given Turbine's usual values.
  - The cache size and the singleton `ActionLoader.getInstance()` are not
    modelled.
- `GenericLoader`'s table is a map field. Its size limit and eviction
  are not modelled, because `GenericLoader` is not part of this model.
- `BaseValueParser` is not part of this model. `ValueParser` models the
  documented and tested contract of the interface:
  - Which value `getString` picks for a multi-valued name is a parameter.
  - The double, float, BigDecimal, Date, NumberKey, StringKey and
    `getObject` getters and `add(String, double)` are left out, because
    they rely on floating point, date formats or other classes.
  - `containsDateSelectorKeys`, `keys`, `keySet`, `getKeys` and
    `toString` are left out.
  - The deprecated `getBool` and `getInteger` aliases are left out.
  - The untested case in which a stored "null" text reads as null is not
    modelled.
- `ValueParser.ValueParser.GetString`: for a name holding several values
  the contract does not fix which one is read. It is the first or the
  last, by the `Pick` setting, because the code that decides it is not
  part of this model.
- `JavaLang.ToLower`, `JavaLang.ToUpper` and `JavaLang.EqualsIgnoreCase`
  fold ASCII letters only. Java's `toLowerCase`, `toUpperCase` and
  `equalsIgnoreCase` fold every Unicode letter, and the first two depend
  on the default locale (the Turkish dotless i). So for a non-ASCII name
  such as "Ä", `ValueParser.Convert` and
  `ValueParser.ValueParser.ContainsKey` differ from the Java under
  folding. `ValueParser.ParseBoolean` can differ on a non-ASCII value
  that Java folds onto one of its words, such as "yeſ" (with a long s,
  whose upper case is S).
- `JavaLang.DigitValue` recognises ASCII digits and letters only.
  `Character.digit` also accepts the other Unicode decimal digits and
  the full-width Latin letters. Every radix parse built on it
  (`JavaLang.ParseInRange`, `ValueParser.ParseNumber`, the
  `UUIdGenerator` octets, the port in `DynamicURIModel.Exec`) therefore
  rejects some strings that Java accepts.
- `SessionData.SessionData.Put`: keys are non-null strings. The
  `HashMap` behind `SessionData` also accepts a null key, which the
  model cannot express.
- `DefaultParameterParser`: the multipart upload branch of `setRequest`
  (`TurbineUpload.parseRequest`) is left out. It depends on the upload
  service.
  - `URLDecoder.decode` is an opaque function. An exception from it is
    `None`.
  - `getFileItem` and `getFileItems` are never given a non-FileItem
    object, so their `ClassCastException` paths are not modelled.
  - `dispose` does not model `super.dispose()`. The parameter table is
    kept.
- `UUIdGenerator`:
  - `Math.random()` is a parameter `samples` of six values.
  - The clock and `MimeUtility` Base64 encoding are the parameter
    `encoded`.
  - `synchronized` and concurrent calls to `getId` are not modelled.
  - Reading `uuid.address` from the configuration is the parameter
    `addr`.
  - A null setting is treated as empty.
- `UUIdGenerator.UUIdGenerator.GetId` models `getId` sequentially. The
  double check under the lock reduces to a single branch, because no
  other thread can change `counter`.
- `DynamicURIModel`:
  - `DynamicURI`'s own rendering (`toString`) and the defaults it takes
    from `RunData` are not modelled. `exec` is modelled up to the parts
    it sets on the URI.
  - The `ClassCastException` of a non-String argument cannot happen with
    a `seq<string>`.
- `StringKey.StringKey.FromKey`: the copy constructor throws a
  `NullPointerException` on a null argument. The model takes a non-null
  `StringKey`.
  - `hashCode` and `SimpleKey` are not part of this model.
- `SessionData.SessionData.Get`: calling `get`, `containsKey`, `put` or
  `clear` before `init` throws a `NullPointerException`. The model
  requires `init` to have run.
  - The key iterator is a set, so its order is not modelled.
- `FormMessage`: `getMessage` and `getFormName` are plain field reads.
  The class fields are read directly.
- `HsqlDB`:
  - Reading the file and the JDBC connection are left out.
  - `statement.execute` is recorded as an attempt.
  - An `SQLException` is membership of the command in the set `fails`.
- `HsqlDB.LoadSqlFile`: whether a statement fails depends only on its
  text. A real database's answer also depends on its state, so the same
  text run twice (such as `DROP TABLE t;`) may fail once and succeed
  once. The model cannot express that. `HsqlDB.FailuresAreSkipped` holds
  for any two failure sets. `HsqlDB.AttemptsAreStatements`'s failure flag
  describes this abstraction.

## Findings

| source | as written | input that shows it | evidently intended | confidence | as-written member | corrected member |
|---|---|---|---|---|---|---|
| src/java/org/apache/turbine/util/db/UUIdGenerator.java:144 | MAC octets are read with `Byte.parseByte(token, 16)`, which accepts only -80..7F | uuid.address `AE:10:3E:de:f5:77`, the example in the class's own error message | octets 00..FF accepted, each stored as a byte | high; not executed | UUIdGenerator.MacHighOctetRejected | UUIdGenerator.UnsignedMacAccepted |
| src/java/org/apache/turbine/util/db/UUIdGenerator.java:196-215 | the call that takes the counter past 4095 resets it but keeps `index` = 4096 and reads `countChar[4096 / 64]` | the 4096th `getId` call after a renewal (counter 4095) | renew the base and hand out an id with counter 0 | high; not executed | UUIdGenerator.NextIdOverflows | UUIdGenerator.NextIdFixedInBounds |
| src/java/org/apache/turbine/util/db/UUIdGenerator.java:75 | `baseId` starts null and is set only on renewal | the first `getId` of a new generator returns "nullAB" | a generated base before the first id (an 18-char id) | medium; not executed | UUIdGenerator.FirstIdUsesNull | UUIdGenerator.FirstIdUsesGeneratedBase |
| src/test/org/apache/turbine/test/HsqlDB.java:102 | `commands.substring(targetPos + 2)` with the ';' as the last char | a script file whose text is `x;` (no trailing newline) | stop at the end of the text after executing the last statement | medium; not executed | HsqlDB.LastSemicolonExample | HsqlDB.BoundedAgrees |
