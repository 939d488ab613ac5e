# redisson-distributed-lock in Dafny

A model of the two cooperating parts of the redisson-distributed-lock Spring Boot starter, with
proofs about them.

- **Lock-name resolution** (`LockNameCoreConverter.convertLockName` and the two
  `LockNamePreConverter` implementations). A template such as `saveOrder:{order.productId}`
  becomes a concrete lock key in four steps:
  1. the pluggable pre-converter substitutes its special token (`{@userId}` or `{@ip}`);
  2. the configured prefix goes in front unless it is blank;
  3. the string is scanned with the pattern `\{(.*?)}`;
  4. every match is replaced, with `String.replace`, by the value its field names. That value
     comes from a parameter, a field of the single bound argument, or a dotted field path.
- **The lock advice** (`DistributedLockAspect.lockAspect`, `getAndCheckLockAnnotation`,
  `lock`, `unlock`). It validates the `@DistributedLock` declaration, requires a Redisson
  client, resolves the key and acquires the lock. It then runs the method and releases the lock in
  `finally`. Each failure is a `DistributedLockException` with the documented status (0 to 5).

Files, one module each:

- `results.dfy`: `Option` and `Result`.
- `java_text.dfy`: the Java string operations the code relies on. These are `contains`,
  `indexOf`, `replace`, `split("\\.")`, `StringUtils.isBlank` and `Long.toString`.
- `lock_exception.dfy`: the status codes and the exception.
- `annotation.dfy`: the declaration record, its defaults and its enums.
- `call_context.dfy`: argument values as the converter sees them.
- `pre_converters.dfy`: the default and the example pre-converter.
- `placeholders.dfy`: the pattern and the successive `Matcher.find` calls.
- `core_converter.dfy`: `convertLockName`. `ConvertSpec` states the result as a function of
  the inputs. `ConvertLockName` follows the loops of the source and is proved to compute
  `ConvertSpec`.
- `conversion_examples.dfy`: worked conversions that pin down the edge behaviour.
- `aspect.dfy`: the advice. The Redisson client is a class that records every
  `lock`/`tryLock`/`unlock` call with its answer. The answers come from an arbitrary function,
  so every property holds whatever the lock service does. `Advice` states the run as a function
  of the inputs, and `LockAspect` is proved to follow it.

Two behaviours of the code that are easy to misread:

- **Unlock failure.** A failing unlock is thrown from `finally`, so it replaces the exception the
  method threw. It is not aggregated with it.
- **Repeated substitution.** Substitution is not single-pass. `String.replace` works on the
  current name, so text inserted by an earlier replacement is rewritten when it equals a later
  match (`InsertedTextExample`).

## Model

| member | source | states |
|---|---|---|
| JavaText.IndexOf | redisson-distributed-lock-spring-boot-starter/src/main/java/com/aaaxing/distributed/lock/converter/LockNameCoreConverter.java:91 | a result is an occurrence at or after the start |
| JavaText.IndexOfIsFirst | redisson-distributed-lock-spring-boot-starter/src/main/java/com/aaaxing/distributed/lock/converter/LockNameCoreConverter.java:91 | no occurrence lies between the start and the result, and None means there is none at or after the start |
| JavaText.ReplaceFromAtNext | redisson-distributed-lock-spring-boot-starter/src/main/java/com/aaaxing/distributed/lock/converter/LockNameCoreConverter.java:91 | scanning on from a position, `replace` keeps the text up to the next occurrence, puts the replacement there, and resumes after that occurrence |
| JavaText.ReplaceFromNoOccurrence | redisson-distributed-lock-spring-boot-starter/src/main/java/com/aaaxing/distributed/lock/converter/LockNameCoreConverter.java:91 | scanning on from a position with no occurrence left, `replace` keeps the rest of the string as it is |
| JavaText.ReplaceAll | redisson-distributed-lock-spring-boot-starter/src/main/java/com/aaaxing/distributed/lock/converter/LockNameCoreConverter.java:91 | `String.replace` for a non-empty target; its contract is stated by the lemmas `ReplaceFromAtNext`, `ReplaceFromNoOccurrence`, `ReplaceAllAtFirst` and `ReplaceAllAbsent` below |
| JavaText.ReplaceAllAtFirst | redisson-distributed-lock-spring-boot-starter/src/main/java/com/aaaxing/distributed/lock/converter/LockNameCoreConverter.java:91 | `replace` is the indexOf loop: the text before the first occurrence is kept, the occurrence replaced, and the scan resumes after it |
| JavaText.ReplaceAllAbsent | redisson-distributed-lock-spring-boot-starter/src/main/java/com/aaaxing/distributed/lock/converter/DefaultLockNamePreConverter.java:34-43 | replacing a target the string does not contain leaves it unchanged |
| JavaText.SplitOnDotsPieces | redisson-distributed-lock-spring-boot-starter/src/main/java/com/aaaxing/distributed/lock/converter/LockNameCoreConverter.java:100 | no piece produced by cutting at the dots contains a dot |
| JavaText.JoinSplitOnDots | redisson-distributed-lock-spring-boot-starter/src/main/java/com/aaaxing/distributed/lock/converter/LockNameCoreConverter.java:100 | gluing the pieces back with dots gives the original string |
| JavaText.SplitOnDotsAllEmpty | redisson-distributed-lock-spring-boot-starter/src/main/java/com/aaaxing/distributed/lock/converter/LockNameCoreConverter.java:100 | every piece is empty exactly when the string is made of dots only |
| JavaText.SplitOnDotsNoDot | redisson-distributed-lock-spring-boot-starter/src/main/java/com/aaaxing/distributed/lock/converter/LockNameCoreConverter.java:100 | a string without a dot is a single piece |
| JavaText.SplitOnDotsAfter | redisson-distributed-lock-spring-boot-starter/src/main/java/com/aaaxing/distributed/lock/converter/LockNameCoreConverter.java:100 | the text before the first dot is the first piece, and the rest is cut independently |
| JavaText.DropTrailingEmpty | redisson-distributed-lock-spring-boot-starter/src/main/java/com/aaaxing/distributed/lock/converter/LockNameCoreConverter.java:100 | the result is a prefix of the pieces that ends in a non-empty piece, and only empty pieces were dropped |
| JavaText.SplitJoin | redisson-distributed-lock-spring-boot-starter/src/main/java/com/aaaxing/distributed/lock/converter/LockNameCoreConverter.java:100 | dot-free segments joined with `.` are cut back by the split into exactly those segments |
| JavaText.SplitDot | redisson-distributed-lock-spring-boot-starter/src/main/java/com/aaaxing/distributed/lock/converter/LockNameCoreConverter.java:100 | `field.split("\\.")`; its contract is stated by `SplitDotEmpty`, by the `SplitOnDots` lemmas and `SplitJoin` above and, for fields of the forms `a.` and `a.f`, by `TrailingDotToken` and `FieldPathToken` |
| JavaText.SplitDotEmpty | redisson-distributed-lock-spring-boot-starter/src/main/java/com/aaaxing/distributed/lock/converter/LockNameCoreConverter.java:100-101 | `split` on a dotted field yields no element exactly when the field is all dots |
| JavaText.Digits | redisson-distributed-lock-spring-boot-starter/src/main/java/com/aaaxing/distributed/lock/converter/DefaultLockNamePreConverter.java:43 | the decimal digits have no leading zero and are all digit characters |
| JavaText.ParseDigitsOfDigits | redisson-distributed-lock-spring-boot-starter/src/main/java/com/aaaxing/distributed/lock/converter/DefaultLockNamePreConverter.java:43 | the digits of a natural number read back as the same number |
| JavaText.DecimalStringRoundTrip | redisson-distributed-lock-spring-boot-starter/src/main/java/com/aaaxing/distributed/lock/converter/DefaultLockNamePreConverter.java:41-43 | the decimal form of a `long` is well formed and reads back as the same number |
| Annotation.AliasedName | redisson-distributed-lock-spring-boot-starter/src/main/java/com/aaaxing/distributed/lock/annotation/DistributedLock.java:34-39 | `name` and `value` give one template: conflicting non-empty values are rejected, otherwise the non-default one is used |
| Annotation.AliasesAreSymmetric | redisson-distributed-lock-spring-boot-starter/src/main/java/com/aaaxing/distributed/lock/annotation/DistributedLock.java:34-39 | it does not matter which of the two aliases is written |
| Annotation.Defaults | redisson-distributed-lock-spring-boot-starter/src/main/java/com/aaaxing/distributed/lock/annotation/DistributedLock.java:42-73 | the defaults are type LOCK, mode LOCK, lease -1, wait 0, SECONDS, auto-unlock, and "try lock failed" |
| CallContext.ValueOf | redisson-distributed-lock-spring-boot-starter/src/main/java/com/aaaxing/distributed/lock/converter/LockNameCoreConverter.java:90-91 | `String.valueOf` gives "null" for null, the text of a boxed primitive or string, and an object's `toString()` result; it fails exactly for an object whose `toString()` throws or returns null (the null then makes `replace` throw) |
| PreConverters.UserIdText | redisson-distributed-lock-spring-boot-starter/src/main/java/com/aaaxing/distributed/lock/converter/DefaultLockNamePreConverter.java:35-43 | the user id is "null" without a request or attribute, the decimal `Long` otherwise, and the cast throws for other request or attribute types |
| PreConverters.DefaultPreConvertReplaces | redisson-distributed-lock-spring-boot-starter/src/main/java/com/aaaxing/distributed/lock/converter/DefaultLockNamePreConverter.java:34-45 | when the user id can be read, the default pre-converter replaces every `{@userId}` by it and nothing else |
| PreConverters.DefaultPreConvert | redisson-distributed-lock-spring-boot-starter/src/main/java/com/aaaxing/distributed/lock/converter/DefaultLockNamePreConverter.java:29-46 | the default pre-converter never returns null, throws exactly when the name contains `{@userId}` and the request or attribute has the wrong type, and leaves a name without `{@userId}` as it is |
| PreConverters.UserIdIsDecimal | redisson-distributed-lock-spring-boot-starter/src/main/java/com/aaaxing/distributed/lock/converter/DefaultLockNamePreConverter.java:41-43 | a `Long` attribute is written in decimal, and the text reads back as the same number |
| PreConverters.ClientIp | redisson-distributed-lock-example/src/main/java/com/aaaxing/example/converter/MyLockNamePreConverter.java:42-52 | the address is the whole `X-Forwarded-For` header if present, else the remote address; it is "null" without a request and throws for other request types |
| PreConverters.ConvertOther | redisson-distributed-lock-example/src/main/java/com/aaaxing/example/converter/MyLockNamePreConverter.java:64-68 | the further-conversion hook is the identity |
| PreConverters.ConvertClientIp | redisson-distributed-lock-example/src/main/java/com/aaaxing/example/converter/MyLockNamePreConverter.java:38-56 | `convertClientIp` never returns null, throws exactly when the name contains `{@ip}` and the request attributes are not servlet ones, and leaves a name without `{@ip}` as it is |
| PreConverters.MyPreConvertReplaces | redisson-distributed-lock-example/src/main/java/com/aaaxing/example/converter/MyLockNamePreConverter.java:23-56 | when the address can be read, the example pre-converter replaces every `{@ip}` by it |
| PreConverters.MyPreConvert | redisson-distributed-lock-example/src/main/java/com/aaaxing/example/converter/MyLockNamePreConverter.java:23-30 | the example pre-converter never returns null, throws exactly when the name contains `{@ip}` and the request attributes are not servlet ones, and passes a name without `{@ip}` through unchanged |
| PreConverters.MyPreConvertKeepsUserId | redisson-distributed-lock-example/src/main/java/com/aaaxing/example/converter/MyLockNamePreConverter.java:23-28 | the example pre-converter leaves `{@userId}` untouched |
| Placeholders.Text | redisson-distributed-lock-spring-boot-starter/src/main/java/com/aaaxing/distributed/lock/converter/LockNameCoreConverter.java:83 | a match's text is at least the two braces |
| Placeholders.TextIsBracedField | redisson-distributed-lock-spring-boot-starter/src/main/java/com/aaaxing/distributed/lock/converter/LockNameCoreConverter.java:83-85 | a match's text is its field between braces, and the field holds no `}` |
| Placeholders.CloseFrom | redisson-distributed-lock-spring-boot-starter/src/main/java/com/aaaxing/distributed/lock/converter/LockNameCoreConverter.java:30 | the group closes at the first `}`, and cannot close across a line terminator |
| Placeholders.ClosingIsUnique | redisson-distributed-lock-spring-boot-starter/src/main/java/com/aaaxing/distributed/lock/converter/LockNameCoreConverter.java:30 | a group has at most one closing brace |
| Placeholders.FindFrom | redisson-distributed-lock-spring-boot-starter/src/main/java/com/aaaxing/distributed/lock/converter/LockNameCoreConverter.java:68 | a found match starts at or after the search position and lies inside the string |
| Placeholders.FindFromIsLeftmost | redisson-distributed-lock-spring-boot-starter/src/main/java/com/aaaxing/distributed/lock/converter/LockNameCoreConverter.java:68 | `find` returns the leftmost match from the search position, and nothing only when no match exists |
| Placeholders.LeftmostIsUnique | redisson-distributed-lock-spring-boot-starter/src/main/java/com/aaaxing/distributed/lock/converter/LockNameCoreConverter.java:68 | the leftmost match is unique |
| Placeholders.MatchesFrom | redisson-distributed-lock-spring-boot-starter/src/main/java/com/aaaxing/distributed/lock/converter/LockNameCoreConverter.java:67-68 | every visited match lies inside the scanned string, after the start |
| Placeholders.MatchesAreOrdered | redisson-distributed-lock-spring-boot-starter/src/main/java/com/aaaxing/distributed/lock/converter/LockNameCoreConverter.java:67-68 | the matches come out left to right and never overlap |
| Placeholders.MatchesFromIsFindSequence | redisson-distributed-lock-spring-boot-starter/src/main/java/com/aaaxing/distributed/lock/converter/LockNameCoreConverter.java:67-68 | the listed matches are what successive `find` calls return |
| Placeholders.FindSequenceIsUnique | redisson-distributed-lock-spring-boot-starter/src/main/java/com/aaaxing/distributed/lock/converter/LockNameCoreConverter.java:67-68 | successive `find` calls have no other possible outcome |
| Placeholders.NoBraceNoMatch | redisson-distributed-lock-spring-boot-starter/src/main/java/com/aaaxing/distributed/lock/converter/LockNameCoreConverter.java:30 | a string without `{` has no match |
| Placeholders.EmptyBracesMatch | redisson-distributed-lock-spring-boot-starter/src/main/java/com/aaaxing/distributed/lock/converter/LockNameCoreConverter.java:83-85 | `{}` matches with an empty field |
| Placeholders.UnterminatedBrace | redisson-distributed-lock-spring-boot-starter/src/main/java/com/aaaxing/distributed/lock/converter/LockNameCoreConverter.java:30 | a `{` with no `}` after it on its line opens no match, whatever else the string holds |
| Placeholders.MatchesAreMatches | redisson-distributed-lock-spring-boot-starter/src/main/java/com/aaaxing/distributed/lock/converter/LockNameCoreConverter.java:68 | every match the loop visits is a match of the pattern |
| Placeholders.NoTerminatedBraceNoMatch | redisson-distributed-lock-spring-boot-starter/src/main/java/com/aaaxing/distributed/lock/converter/LockNameCoreConverter.java:30 | a string in which no `{` has a `}` after it on its line has no match |
| LockNameCoreConverter.GetFieldValue | redisson-distributed-lock-spring-boot-starter/src/main/java/com/aaaxing/distributed/lock/converter/LockNameCoreConverter.java:128-138 | a declared field's value is read; null comes back when it cannot be read, including for a blank field name, which `readDeclaredField` rejects |
| LockNameCoreConverter.Bind | redisson-distributed-lock-spring-boot-starter/src/main/java/com/aaaxing/distributed/lock/converter/LockNameCoreConverter.java:69-81 | the lazily built `paramMap` and `tempObj`; its contract is stated by `BindKeys`, `BindValues`, `BindLast` and `SingleBinding` below, and `BuildBindings` is the loop proved to compute it |
| LockNameCoreConverter.BindKeys | redisson-distributed-lock-spring-boot-starter/src/main/java/com/aaaxing/distributed/lock/converter/LockNameCoreConverter.java:75-80 | the parameter map's keys are the names of the arguments that are not requests or responses |
| LockNameCoreConverter.BindValues | redisson-distributed-lock-spring-boot-starter/src/main/java/com/aaaxing/distributed/lock/converter/LockNameCoreConverter.java:75-80 | each name is bound to the last argument carrying it |
| LockNameCoreConverter.BindLast | redisson-distributed-lock-spring-boot-starter/src/main/java/com/aaaxing/distributed/lock/converter/LockNameCoreConverter.java:78 | `tempObj` is the last bound argument, or null when every argument is excluded |
| LockNameCoreConverter.SingleBinding | redisson-distributed-lock-spring-boot-starter/src/main/java/com/aaaxing/distributed/lock/converter/LockNameCoreConverter.java:75-92 | one bound argument among requests and responses gives a one-entry map whose `tempObj` is that argument |
| LockNameCoreConverter.Walk | redisson-distributed-lock-spring-boot-starter/src/main/java/com/aaaxing/distributed/lock/converter/LockNameCoreConverter.java:101-107 | the path walk stays null once null, and an empty path gives the start value |
| LockNameCoreConverter.TokenValue | redisson-distributed-lock-spring-boot-starter/src/main/java/com/aaaxing/distributed/lock/converter/LockNameCoreConverter.java:87-110 | the value a placeholder stands for; its contract is stated by `TokenFailsIff`, `ParameterToken`, `ShorthandToken`, `TrailingDotToken`, `FieldPathToken` and `DottedPathToken` below |
| LockNameCoreConverter.TokenFailsIff | redisson-distributed-lock-spring-boot-starter/src/main/java/com/aaaxing/distributed/lock/converter/LockNameCoreConverter.java:99-113 | looking up a placeholder's value throws exactly when its field is dots only |
| LockNameCoreConverter.TokenTextFailsIff | redisson-distributed-lock-spring-boot-starter/src/main/java/com/aaaxing/distributed/lock/converter/LockNameCoreConverter.java:87-113 | the text for a placeholder cannot be produced exactly when its field is dots only or its value is an object whose `toString()` throws or returns null |
| LockNameCoreConverter.ParameterToken | redisson-distributed-lock-spring-boot-starter/src/main/java/com/aaaxing/distributed/lock/converter/LockNameCoreConverter.java:87-91 | a field naming a parameter stands for that argument, and a null argument prints as "null" |
| LockNameCoreConverter.ShorthandToken | redisson-distributed-lock-spring-boot-starter/src/main/java/com/aaaxing/distributed/lock/converter/LockNameCoreConverter.java:92-98 | an unknown undotted field reads that field of the single bound argument (null if it is not an object, the name is blank or no such field is declared); with any other number of bound arguments it is null |
| LockNameCoreConverter.TrailingDotToken | redisson-distributed-lock-spring-boot-starter/src/main/java/com/aaaxing/distributed/lock/converter/LockNameCoreConverter.java:99-101 | `{a.}` is the plain lookup of parameter `a` |
| LockNameCoreConverter.FieldPathToken | redisson-distributed-lock-spring-boot-starter/src/main/java/com/aaaxing/distributed/lock/converter/LockNameCoreConverter.java:99-109 | `{a.f}` looks up `a` and reads its field `f`, or stays null when `a` is null |
| LockNameCoreConverter.DottedPathToken | redisson-distributed-lock-spring-boot-starter/src/main/java/com/aaaxing/distributed/lock/converter/LockNameCoreConverter.java:99-110 | a multi-level path `{a.f1.f2…}` whose segments have no dots and whose last segment is non-empty looks up `a` and then reads one field per segment, stopping at the first null (the `{user.address.id}` form the annotation documents) |
| LockNameCoreConverter.Fill | redisson-distributed-lock-spring-boot-starter/src/main/java/com/aaaxing/distributed/lock/converter/LockNameCoreConverter.java:68-111 | the matcher loop over the visited matches; its contract is stated by `FillFailsIff`, `FillStep` and `FillStepFails` below, and `ReplacePlaceholders` is the loop proved to compute it |
| LockNameCoreConverter.FillFailsIff | redisson-distributed-lock-spring-boot-starter/src/main/java/com/aaaxing/distributed/lock/converter/LockNameCoreConverter.java:68-113 | substitution throws exactly when some match has a field of dots only or a value whose `toString()` throws or returns null |
| LockNameCoreConverter.FillStepFails | redisson-distributed-lock-spring-boot-starter/src/main/java/com/aaaxing/distributed/lock/converter/LockNameCoreConverter.java:68-110 | a throwing placeholder makes the whole substitution throw |
| LockNameCoreConverter.FillStep | redisson-distributed-lock-spring-boot-starter/src/main/java/com/aaaxing/distributed/lock/converter/LockNameCoreConverter.java:68-111 | one loop turn replaces the leftmost match's text in the current name, then resumes past the match in the original string |
| LockNameCoreConverter.BuildBindings | redisson-distributed-lock-spring-boot-starter/src/main/java/com/aaaxing/distributed/lock/converter/LockNameCoreConverter.java:69-81 | the `for` loop builds exactly the parameter map and `tempObj` of `Bind` |
| LockNameCoreConverter.FieldText | redisson-distributed-lock-spring-boot-starter/src/main/java/com/aaaxing/distributed/lock/converter/LockNameCoreConverter.java:87-110 | the branches and the dotted-path `for` loop compute the placeholder's text |
| LockNameCoreConverter.ReplaceOne | redisson-distributed-lock-spring-boot-starter/src/main/java/com/aaaxing/distributed/lock/converter/LockNameCoreConverter.java:69-110 | one turn of the matcher loop keeps the substitution still to come equal to the whole |
| LockNameCoreConverter.ReplacePlaceholders | redisson-distributed-lock-spring-boot-starter/src/main/java/com/aaaxing/distributed/lock/converter/LockNameCoreConverter.java:64-111 | the `while (matcher.find())` loop computes the substitution of all matches of the unsubstituted string |
| LockNameCoreConverter.ConvertSpec | redisson-distributed-lock-spring-boot-starter/src/main/java/com/aaaxing/distributed/lock/converter/LockNameCoreConverter.java:47-119 | what `convertLockName` returns or throws; its contract is stated by `ConvertFailsIff`, `NoMatchConvert`, `NoPlaceholderConvert` and `NonLongUserIdFails` below, and `ConvertLockName` is the method proved to compute it |
| LockNameCoreConverter.ConvertLockName | redisson-distributed-lock-spring-boot-starter/src/main/java/com/aaaxing/distributed/lock/converter/LockNameCoreConverter.java:47-119 | `convertLockName` returns or throws exactly what `ConvertSpec` says |
| LockNameCoreConverter.ConvertFailsIff | redisson-distributed-lock-spring-boot-starter/src/main/java/com/aaaxing/distributed/lock/converter/LockNameCoreConverter.java:51-114 | conversion fails, always with status 2, exactly when the pre-converter throws or returns null, or a placeholder's field is dots only, or its value's `toString()` throws or returns null |
| LockNameCoreConverter.NoMatchConvert | redisson-distributed-lock-spring-boot-starter/src/main/java/com/aaaxing/distributed/lock/converter/LockNameCoreConverter.java:59-68 | a name in which nothing matches comes out as prefix (unless blank) plus pre-converted name |
| LockNameCoreConverter.NoPlaceholderConvert | redisson-distributed-lock-spring-boot-starter/src/main/java/com/aaaxing/distributed/lock/converter/LockNameCoreConverter.java:59-68 | a name in which no `{` has a `}` after it on its line (in particular one without `{` or without `}`) comes out as prefix plus pre-converted name |
| LockNameCoreConverter.NonLongUserIdFails | redisson-distributed-lock-spring-boot-starter/src/main/java/com/aaaxing/distributed/lock/converter/DefaultLockNamePreConverter.java:41 | a non-`Long` user id attribute makes the conversion fail with status 2 |
| ConversionExamples.RepeatedPlaceholderExample | redisson-distributed-lock-spring-boot-starter/src/main/java/com/aaaxing/distributed/lock/converter/LockNameCoreConverter.java:91 | `{id}:{id}` is filled completely by its first match |
| ConversionExamples.InsertedTextExample | redisson-distributed-lock-spring-boot-starter/src/main/java/com/aaaxing/distributed/lock/converter/LockNameCoreConverter.java:67-91 | text inserted by an earlier replacement is rewritten by a later match with the same text |
| ConversionExamples.PrefixPlaceholderExample | redisson-distributed-lock-spring-boot-starter/src/main/java/com/aaaxing/distributed/lock/converter/LockNameCoreConverter.java:60-67 | a placeholder inside the prefix is filled too |
| ConversionExamples.UserIdUnderExampleConverter | redisson-distributed-lock-example/src/main/java/com/aaaxing/example/converter/MyLockNamePreConverter.java:23-28 | under the example pre-converter `{@userId}` is an ordinary placeholder and becomes "null" |
| ConversionExamples.DotOnlyPlaceholderFails | redisson-distributed-lock-spring-boot-starter/src/main/java/com/aaaxing/distributed/lock/converter/LockNameCoreConverter.java:100-113 | `{.}` makes the conversion fail with status 2 |
| ConversionExamples.UnprintableArgumentFails | redisson-distributed-lock-spring-boot-starter/src/main/java/com/aaaxing/distributed/lock/converter/LockNameCoreConverter.java:88-113 | a placeholder bound to an object whose `toString()` throws or returns null makes the conversion fail with status 2 |
| Aspect.HandleFor | redisson-distributed-lock-spring-boot-starter/src/main/java/com/aaaxing/distributed/lock/aspect/DistributedLockAspect.java:116-161 | the handle carries the key, and the lock type picks the handle kind |
| Aspect.HandlesAreDistinct | redisson-distributed-lock-spring-boot-starter/src/main/java/com/aaaxing/distributed/lock/aspect/DistributedLockAspect.java:116-161 | two handles are equal exactly when type and key are equal |
| Aspect.RedissonClient.Lock | redisson-distributed-lock-spring-boot-starter/src/main/java/com/aaaxing/distributed/lock/aspect/DistributedLockAspect.java:121 | a blocking `lock` call is recorded with its answer |
| Aspect.RedissonClient.TryLock | redisson-distributed-lock-spring-boot-starter/src/main/java/com/aaaxing/distributed/lock/aspect/DistributedLockAspect.java:123 | a `tryLock` call is recorded with its answer |
| Aspect.RedissonClient.Unlock | redisson-distributed-lock-spring-boot-starter/src/main/java/com/aaaxing/distributed/lock/aspect/DistributedLockAspect.java:191 | an `unlock` call is recorded with its answer |
| Aspect.JoinPoint.Proceed | redisson-distributed-lock-spring-boot-starter/src/main/java/com/aaaxing/distributed/lock/aspect/DistributedLockAspect.java:64 | `proceed()` runs the method once and yields its completion |
| Aspect.GetAndCheckLockAnnotation | redisson-distributed-lock-spring-boot-starter/src/main/java/com/aaaxing/distributed/lock/aspect/DistributedLockAspect.java:75-98 | status 0 for a missing declaration, then for lease below -1, then for negative wait; otherwise the declaration |
| Aspect.DefaultsPassValidation | redisson-distributed-lock-spring-boot-starter/src/main/java/com/aaaxing/distributed/lock/annotation/DistributedLock.java:51-66 | a declaration left at its defaults passes validation |
| Aspect.AcquireCall | redisson-distributed-lock-spring-boot-starter/src/main/java/com/aaaxing/distributed/lock/aspect/DistributedLockAspect.java:116-161 | the acquire uses the type's handle: `lock(lease, unit)` in blocking mode, `tryLock(wait, lease, unit)` in try mode |
| Aspect.AcquireFailure | redisson-distributed-lock-spring-boot-starter/src/main/java/com/aaaxing/distributed/lock/aspect/DistributedLockAspect.java:122-167 | an acquire fails exactly when it throws (status 3) or a try-lock is refused (status 5 with the declared message) |
| Aspect.ReleaseFailure | redisson-distributed-lock-spring-boot-starter/src/main/java/com/aaaxing/distributed/lock/aspect/DistributedLockAspect.java:204-206 | a release fails, with status 4, exactly when `unlock` throws |
| Aspect.Guarded | redisson-distributed-lock-spring-boot-starter/src/main/java/com/aaaxing/distributed/lock/aspect/DistributedLockAspect.java:61-72 | the advice once the key is known; its contract is stated by `GuardedIsBracketed`, `LockedRun` and `FailedAcquireSkipsMethod`, and `DistributedLockAspect.LockedCall` is the method proved to follow it |
| Aspect.GuardedIsBracketed | redisson-distributed-lock-spring-boot-starter/src/main/java/com/aaaxing/distributed/lock/aspect/DistributedLockAspect.java:61-67 | after the key is known: one acquire, then a release of the same handle, and the method runs exactly when the acquire succeeded |
| Aspect.Advice | redisson-distributed-lock-spring-boot-starter/src/main/java/com/aaaxing/distributed/lock/aspect/DistributedLockAspect.java:47-73 | `lockAspect` as a function of its inputs; its contract is stated by `AdviceIsBracketed`, `StepsBeforeLocking` and `AcquiresConvertedKey`, and `DistributedLockAspect.LockAspect` is the method proved to follow it |
| Aspect.AdviceIsBracketed | redisson-distributed-lock-spring-boot-starter/src/main/java/com/aaaxing/distributed/lock/aspect/DistributedLockAspect.java:47-73 | every run makes no calls, one acquire, or an acquire then a release of the same handle; the method runs only under the lock, and a run without it fails with a lock error |
| Aspect.StepsBeforeLocking | redisson-distributed-lock-spring-boot-starter/src/main/java/com/aaaxing/distributed/lock/aspect/DistributedLockAspect.java:53-59 | the order is validation (0), then client (1), then conversion (2); nothing reaches the client unless all three pass |
| Aspect.AcquiresConvertedKey | redisson-distributed-lock-spring-boot-starter/src/main/java/com/aaaxing/distributed/lock/aspect/DistributedLockAspect.java:59-61 | the lock is taken on the converted key with the declared type, mode, times and unit |
| Aspect.LockedRun | redisson-distributed-lock-spring-boot-starter/src/main/java/com/aaaxing/distributed/lock/aspect/DistributedLockAspect.java:61-72 | once locked, the method runs; release happens once, on the same handle, iff auto-unlock; the method's completion is returned unchanged unless the release throws, which gives status 4 |
| Aspect.FailedAcquireSkipsMethod | redisson-distributed-lock-spring-boot-starter/src/main/java/com/aaaxing/distributed/lock/aspect/DistributedLockAspect.java:61-67 | a failed acquire runs nothing, releases nothing, and reports the acquire failure |
| Aspect.DistributedLockAspect.Lock | redisson-distributed-lock-spring-boot-starter/src/main/java/com/aaaxing/distributed/lock/aspect/DistributedLockAspect.java:106-173 | `lock` makes exactly the acquire call and throws what `AcquireFailure` says |
| Aspect.DistributedLockAspect.Unlock | redisson-distributed-lock-spring-boot-starter/src/main/java/com/aaaxing/distributed/lock/aspect/DistributedLockAspect.java:181-211 | `unlock` makes no call without auto-unlock; otherwise it makes one `unlock` on the type's handle and throws what `ReleaseFailure` says |
| Aspect.DistributedLockAspect.LockedCall | redisson-distributed-lock-spring-boot-starter/src/main/java/com/aaaxing/distributed/lock/aspect/DistributedLockAspect.java:61-72 | acquire, proceed and release in `finally` produce the calls, the method runs and the completion of `Guarded` |
| Aspect.DistributedLockAspect.LockAspect | redisson-distributed-lock-spring-boot-starter/src/main/java/com/aaaxing/distributed/lock/aspect/DistributedLockAspect.java:47-73 | the advice's completion, client calls and method runs are those of `Advice` |

## Left out

- The programmatic `DistributedLocks` utility is not part of this model.
- Redisson's own behaviour is not modelled: mutual exclusion, fairness, read/write sharing, reentrancy, lease expiry and the watchdog. Every call's answer is an arbitrary function of the call and of how many calls came before it.
- Concurrency, blocking and real time are not modelled. Times and units are passed through unchanged.
- Reflection: `FieldUtils.readDeclaredField` is a partial map of declared fields on object values. Strings and boxed primitives are modelled without readable fields, although Java would expose their private fields.
- `AnnotationUtils.getAnnotation` is an `Option` on the join point. Whether it fails or finds nothing, the result is the same status-0 error.
- The servlet request is reduced to the `userId` attribute, the `X-Forwarded-For` header and the remote address. Header-name case handling is not modelled. The remote address is always a string: the null a servlet container may return for it is not modelled.
- Exception causes (`e.getCause()`) are not modelled; only status and message are.
- `java.lang.Error` is not modelled. An `Error` thrown by Redisson, by a custom pre-converter or by an argument's `toString()` escapes the `catch (Exception e)` blocks untranslated in Java. The model instead reports status 3 or 4 for a failing Redisson call, and status 2 for a pre-converter that throws or an argument whose `toString()` fails.
- Strings: the model's characters are Unicode code points, while Java's are UTF-16 code units. A supplementary character is one `char` in the model and two in Java, and a lone surrogate cannot be represented. None of this changes where `{`, `}` and `.` are found.
- The initial capacity of `paramMap` is not modelled; it does not affect the result.
- Spring wiring, auto-configuration, AOP proxying and logging are not modelled.
