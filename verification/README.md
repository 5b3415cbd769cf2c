# Verified model of the analysis core

Dafny 4.11 model of the parts of the backend whose correctness is an algorithm or a protocol, with proofs of what they
promise. `dafny verify dfyconfig.toml` checks the whole project. One module per file.

**Keccak-256** (`Bits`, `KeccakSteps`, `KeccakConstants`, `KeccakBijection`, `Keccak`, `KeccakStandard`). Python integers
are modelled as unbounded integers with their infinite two's-complement bits, so that staying inside 64-bit lanes is
proved rather than assumed. The in-place loops overwrite an array and are proved equal to parallel step mappings; each
mapping is proved bit by bit to be the one of FIPS 202, sections 3.2.1 to 3.2.5. `KeccakStandard` states one round, the 24
rounds and the whole sponge as relations between bits, with the offsets, the rate and the bit order written out. The
permutation is injective and surjective on all states.

**Comment stripping** (`CommentLexer`, `Comments`, `StrippedText`, `Braces`). A one-pass pushdown lexer with an explicit
stack is the meaning; the two mutually recursive slice scanners compute it for every text. `StrippedText` says what is
written in terms of the text and the arguments alone, by one equation for each way in which code or a literal goes on.
Exactly the comment positions are blanked, stripping twice is stripping once, and the brace skipper of the extractor ends
every interpolation where the stripper does.

**The call scanner** (`CallSites`, `Calls`, `CallSafety`, `CodePositions`, `CallTexts`, `CallCompleteness`, `CallSteps`,
`CallLimits`, `CallNames`, `CallLinks`, `CallForms`). The mutually recursive loops compute the site functions of `CallSites`. Of every text: no position is
recorded twice, argument texts are pieces of the text, and nothing is recorded inside a text that another site took. A
call in code of a name, members included and with any blanks and line breaks before its parenthesis, is recorded unless
the name begins in a text that is taken as it stands (`new X(...)`, `={...}`, bare arguments, right-hand sides of property
assignments), at every depth of arguments, chains and interpolations; if no line break stands before the last part of the
name, it is recorded only then. Nothing inside a string literal is recorded. The scan has to be in step with the text for
that, which only the two readers that know no interpolation can upset. The names are read off the text as well: a site is
recorded under the last word before it and the chain of words that leads there, which begins where no word is joined to it,
and `.next(` behind a recorded call is recorded under the name of that call.

**Splitting** (`TextSplit`, `SplitMeaning`). Top-level splitting rejoins, parts do not split again, and the grouping into
logical lines is the unique greedy one.

**Finding lifecycle** (`Evidence`, `TrustedEvidence`, `LifecyclePolicy`, `Findings`, `LifecycleTheorems`, `AiErasure`,
`PolicyMeaning`).
Transitions of an immutable finding: the guard is checked against the target before, the constructor against the target
after. Hashes, the MAC and text normalisation are functions in `Env`; where a result needs the MAC to be injective or
non-empty, the lemma says so (`Collisionless`, `Signs`). `PolicyMeaning` states what verifies, corroborates and reproduces
by kinds, outcomes and metadata keys written out, and over every run what a finding cannot be verified by.

**Bounded campaigns** (`Scheduler`, `SchedulerMeaning`), **argument candidates** (`SolidityArguments`, `SolidityLiterals`),
**legacy keys** (`FindingKeys`).

What turned out false of the code, each with a witness lemma and the condition under which it does hold:

- `verify` and `reproduce` can pass their guard and then raise in the constructor (`LifecycleTheorems.VerifyCanFailHalfway`,
  `ReproduceCanFailHalfway`). Exactly when: the additions hold the first static observation that sets some part of the
  target, and nothing merged stands for the target that makes (`VerifyInconsistentIff`, `ReproduceInconsistentIff`).
- Adding evidence can take verification away (`LifecycleTheorems.VerificationCanBeLost`). Evidence put together verifies
  exactly if one part has a verifying record whose run the other part does not reproduce
  (`LifecyclePolicy.VerificationOfSum`, `VerificationLost`).
- `restore_server_observation` does not always return: on a forged signature outside ASCII that is as long as the right
  one, comparing the two raises TypeError, which is not caught (`TrustedEvidence.RestoreCanRaise`; exactly when:
  `RestoreIffSigned`).
- A call in the right-hand side of a property assignment is not recorded (`CallLimits.AssignmentHidesCall`). Exactly
  when a call is not recorded: `CallCompleteness.CallsAreFound`.
- A call can be recorded from inside a string, behind a right-hand side that holds a nested template
  (`CallLimits.MisreadTemplate`). A right-hand side makes that possible exactly if it does not end in code
  (`CallLimits.RightHandSideIff`). Where no interpolation opens between an `=` or a bare keyword and the break behind it,
  it cannot happen (`CallSteps.InStepOfText`).
- A declaration of a qualified name is recorded as a call of its last part (`CallLinks.DeclaredMemberIsCalled`). A recorded
  call has a word joined before its name on the same line only in this case (`CallNames.CallsAreNamed`).
- A coverage number can be compared with one of another target if a target holds a line break
  (`SchedulerMeaning.KeysCollide`). Without line breaks two keys are equal exactly if all their parts are (`SameKeyIff`).
- Stripping is not idempotent when a marker contains a blank (`CommentLexer.BlankInMarkerBreaksIdempotence`). For a lone
  marker without blanks, or with some behind it, the condition is exact (`CommentLexer.LoneMarkerIsIdempotentIff`).
- A line marker that begins with a line break keeps `strip_comments` and `_strip_interpolation` at one position for ever
  where it stands at a line break in code (`Comments.MarkerAtBreakStandsStill`; exactly there:
  `Comments.LineBranchStaysIff`). Both methods require that it does not. They can be called on every text exactly if no
  line marker begins with a line break (`CommentLexer.AdvancesIff`).

## Model

| member | source | states |
|---|---|---|
| KeccakSteps.RotlBit | backend/app/parsing/keccak.py:67-69 | on a lane, `_rotl` stays a lane and bit z of the result is bit z - shift modulo 64 |
| KeccakSteps.ThetaBit | backend/app/parsing/keccak.py:74-81 | theta is the map of FIPS 202 section 3.2.1: every bit is flipped by the parities of two neighbouring columns |
| KeccakSteps.RhoBit | backend/app/parsing/keccak.py:82-87 | rho rotates every lane by the offset of section 3.2.2 |
| KeccakSteps.PiBit | backend/app/parsing/keccak.py:82-87 | pi moves bits as section 3.2.3 says |
| KeccakSteps.ChiBit | backend/app/parsing/keccak.py:88-92 | chi is the map of section 3.2.4, whatever bits lie above the lane |
| KeccakSteps.OffsetsAreTriangular | backend/app/parsing/keccak.py:10-35 | rotation offset t is (t+1)(t+2)/2 modulo 64 |
| KeccakSteps.LoopFollowsWalk | backend/app/parsing/keccak.py:82-87 | the lanes the fused loop reads are those of the walk (x, y) to (y, 2x+3y) of section 3.2.2, in order |
| KeccakSteps.LoopVisitsEveryLaneOnce | backend/app/parsing/keccak.py:36-36 | the destinations visit each of the lanes 1 to 24 exactly once |
| KeccakSteps.LoopStepIsPiRho | backend/app/parsing/keccak.py:82-87 | one step of the fused loop writes what pi after rho puts on that lane |
| KeccakConstants.RoundConstantsAreStandard | backend/app/parsing/keccak.py:37-62 | each of the 24 constants has the bits the shift register of section 3.2.5 gives, and no others |
| KeccakBijection.KernelIsZero | backend/app/parsing/keccak.py:74-81 | the only periodic plane that theta's parity map fixes to zero is zero |
| KeccakBijection.ThetaInjective | backend/app/parsing/keccak.py:74-81 | theta loses no information |
| KeccakBijection.ThetaSurjective | backend/app/parsing/keccak.py:74-81 | every state is theta of a state |
| KeccakBijection.RhoInjective | backend/app/parsing/keccak.py:82-87 | rho loses no information |
| KeccakBijection.PiInjective | backend/app/parsing/keccak.py:82-87 | pi loses no information |
| KeccakBijection.ChiInjective | backend/app/parsing/keccak.py:88-92 | chi loses no information |
| KeccakBijection.ChiSurjective | backend/app/parsing/keccak.py:88-92 | every state is chi of a state |
| KeccakBijection.RoundInjective | backend/app/parsing/keccak.py:73-93 | a round loses no information |
| KeccakBijection.RoundsAreStates | backend/app/parsing/keccak.py:72-93 | every lane stays below 2^64 after every number of rounds |
| KeccakBijection.KeccakFInjective | backend/app/parsing/keccak.py:72-93 | different states have different images under the 24 rounds |
| KeccakBijection.KeccakFSurjective | backend/app/parsing/keccak.py:72-93 | every state is the image of a state under the 24 rounds |
| Keccak.ThetaInPlace | backend/app/parsing/keccak.py:74-81 | the loops that overwrite the state compute the parallel theta |
| Keccak.RhoPiInPlace | backend/app/parsing/keccak.py:82-87 | the cycle-following loop with one saved lane computes pi after rho |
| Keccak.ChiInPlace | backend/app/parsing/keccak.py:88-92 | overwriting each row from a copy of it computes the parallel chi |
| Keccak.KeccakFInPlace | backend/app/parsing/keccak.py:72-93 | the in-place rounds compute the permutation |
| Keccak.FromToBytes | backend/app/parsing/keccak.py:119-119 | reading back a number written as n little-endian bytes gives the number |
| Keccak.ToFromBytes | backend/app/parsing/keccak.py:103-104 | writing what was read from n bytes gives the bytes back |
| Keccak.FromBytesBit | backend/app/parsing/keccak.py:103-104 | bit 8i+k of the number is bit k of byte i, the bit order of FIPS 202 |
| Keccak.AbsorbBit | backend/app/parsing/keccak.py:102-104 | absorbing adds the block to the first 1088 bits of the state and leaves the capacity alone |
| Keccak.PadIsPad101 | backend/app/parsing/keccak.py:107-110 | read as bits, the padding is pad10*1 (section 5.1) and fills a multiple of the rate |
| Keccak.PadInjective | backend/app/parsing/keccak.py:107-110 | different messages have different padded messages |
| Keccak.LastByte | backend/app/parsing/keccak.py:107-110 | the zero-filled tail block with 0x01 and 0x80 set is the end of the padded message, 0x81 when one byte is missing |
| Keccak.Keccak256 | backend/app/parsing/keccak.py:96-120 | the offset loop, the tail block and the output loop compute the first 32 bytes of the sponge over the padded message, for every message |
| Keccak.Squeeze | backend/app/parsing/keccak.py:115-120 | the output loop gives the first 32 bytes of the state and never overflows a lane |
| KeccakStandard.OffsetsOfTable2 | backend/app/parsing/keccak.py:10-35 | the rotation of each lane is the one that Table 2 of FIPS 202 lists, modulo 64 |
| KeccakStandard.IotaBit | backend/app/parsing/keccak.py:93-93 | iota flips the bits of lane (0, 0) that are set in the constant the shift register of section 3.2.5 gives to the round |
| KeccakStandard.RoundIsStandard | backend/app/parsing/keccak.py:73-93 | a round is theta, rho, pi, chi and iota in this order, as relations between the bits of five states |
| KeccakStandard.KeccakFIsRounds | backend/app/parsing/keccak.py:72-93 | the permutation is 24 rounds, numbered from 0 |
| KeccakStandard.DigestIsSponge | backend/app/parsing/keccak.py:96-120 | the digest is the sponge of section 4 on the padded bits: from all-zero bits, 1088 bits a block, and the first 256 bits in the order of section 3.1.2 |
| Comments.StripComments | backend/app/parsing/comments.py:6-70 | the scanner with slices computes what the one-pass pushdown lexer writes; the length is unchanged |
| Comments.StripInterpolation | backend/app/parsing/comments.py:88-156 | the recursive scanner writes what the lexer writes up to the closing brace, and consumes as much as it writes |
| Comments.OrderOfMarkersIsIrrelevant | backend/app/parsing/comments.py:73-85 | a line comment starts exactly where some non-empty marker stands; sorting changes nothing |
| Comments.FindIsFirst | backend/app/parsing/comments.py:50-55 | the end of a block comment is the first place its end marker stands |
| StrippedText.SettingsMean | backend/app/parsing/comments.py:19-20 | where a block comment starts and ends and where a line comment starts, in terms of the arguments |
| StrippedText.BlockCommentText | backend/app/parsing/comments.py:50-56 | a block comment is blanked up to the first end marker behind its start, or to the end of the text, and code goes on behind it |
| StrippedText.LineCommentText | backend/app/parsing/comments.py:57-62 | a line comment is blanked up to the line break, at which code goes on |
| StrippedText.CodeCharacterText | backend/app/parsing/comments.py:63-69 | any other character of code is kept; a delimiter opens a literal, braces inside an interpolation are counted, and the one that closes it ends it |
| StrippedText.LiteralCharacterText | backend/app/parsing/comments.py:25-49 | in a literal everything is kept, a backslash protects the next character, and the delimiter ends it |
| StrippedText.InterpolationText | backend/app/parsing/comments.py:33-46 | an interpolation is stripped by itself and the template goes on behind its brace |
| StrippedText.CodeAndBlockComment | backend/app/parsing/comments.py:6-70 | code, a block comment and more code: the code is kept, the comment blanked from marker to marker |
| StrippedText.LiteralIsKept | backend/app/parsing/comments.py:25-49 | a literal is kept as it stands, comment markers in it included |
| CommentLexer.CommentsAreBlanked | backend/app/parsing/comments.py:50-67 | exactly the positions in comments become blanks, all others keep their character |
| CommentLexer.LexKeepsPositions | backend/app/parsing/comments.py:50-67 | line breaks are where they were, and nowhere else |
| CommentLexer.LexKeepsLength | backend/app/parsing/comments.py:22-70 | outside interpolations nothing is dropped |
| CommentLexer.LexNested | backend/app/parsing/comments.py:33-40 | lexing an interpolation inside a template is lexing it by itself and going on behind it |
| CommentLexer.NoCommentLeft | backend/app/parsing/comments.py:50-67 | in stripped text no comment marker stands in code, nested interpolations included |
| CommentLexer.Rescan | backend/app/parsing/comments.py:88-156 | rescanning stripped text from any state changes nothing, with or without markers |
| CommentLexer.StripIsIdempotent | backend/app/parsing/comments.py:6-70 | stripping twice is stripping once if no marker or delimiter contains a blank or line break |
| CommentLexer.BlankInMarkerBreaksIdempotence | backend/app/parsing/comments.py:50-67 | a marker with a blank, and a text that stripping twice changes twice |
| CommentLexer.BlankBehindMarkerBreaksIdempotence | backend/app/parsing/comments.py:50-67 | the same for every lone marker with blanks behind it |
| CommentLexer.LoneMarkerIsIdempotentIff | backend/app/parsing/comments.py:6-70 | for these and for lone markers without blanks, stripping is idempotent on all texts exactly if there is no blank |
| CommentLexer.AdvancesIff | backend/app/parsing/comments.py:57-62 | the requirement of both scanners holds of every text exactly if no line marker begins with a line break |
| Comments.LineBranchStaysIff | backend/app/parsing/comments.py:57-62 | the line-comment branch ends where it began exactly if the marker stands at a line break in code |
| Comments.MarkerAtBreakStandsStill | backend/app/parsing/comments.py:57-62 | a marker and a text on which the line-comment branch ends where it began |
| Braces.SkipBalancedBrace | backend/app/parsing/extract.py:769-799 | ends where the lexer closes the interpolation, at the end of the text if it is not closed |
| Braces.ScannersAgree | backend/app/parsing/extract.py:769-799 | without markers the interpolation stripper returns the text unchanged and stops where the brace skipper stops |
| Braces.ScannersAgreeAfterStripping | backend/app/parsing/extract.py:769-799 | on a stripped file they agree with the markers included, wherever the stripper entered an interpolation |
| Braces.BalancedParens | backend/app/parsing/extract.py:947-977 | the argument text ends at the parenthesis that closes the first one outside strings, else at the end of the text |
| Calls.CallsIn | backend/app/parsing/extract.py:541-671 | the scanning loop ends on every text and records the sites of the text |
| Calls.ConsumeCallChain | backend/app/parsing/extract.py:712-759 | the chain loop records the chained calls and those in their arguments |
| Calls.InterpolationCalls | backend/app/parsing/extract.py:689-709 | the sites of the text between the braces |
| Calls.ReadMemberChain | backend/app/parsing/extract.py:825-847 | the qualified name, its last member, and where reading stopped |
| Calls.ReadToBreak | backend/app/parsing/extract.py:875-937 | the loop of both readers stops at that first position |
| Calls.IsDeclaration | backend/app/parsing/extract.py:857-866 | whether the word before the identifier is a declaration keyword |
| Calls.BalancedBraces | backend/app/parsing/extract.py:762-766 | the text of `={...}` as the brace skipper delimits it |
| CallSafety.CallsAreGood | backend/app/parsing/extract.py:541-759 | of every text: each site lies in it, its argument text is a piece of it, no position is recorded twice, and none lies in the text another site took |
| CallSafety.GoodInPiece | backend/app/parsing/extract.py:674-709 | sites found in an argument or interpolation are sites of the text around it |
| CallSafety.HiddenIsNotRecorded | backend/app/parsing/extract.py:541-759 | nothing is recorded inside a text that another site took |
| CodePositions.ClosingPasses | backend/app/parsing/extract.py:947-977 | behind a closing parenthesis the text is code exactly where it was |
| CodePositions.PieceInCode | backend/app/parsing/extract.py:674-686 | a position of an argument text is code there exactly if it is code in the text around it |
| CodePositions.LexPrefix | backend/app/parsing/extract.py:769-799 | what ends inside a piece of the text ends there for the piece by itself |
| CodePositions.BracesPass | backend/app/parsing/extract.py:769-799 | behind the brace the skipper finds the text is code exactly where it was |
| CodePositions.InStepIff | backend/app/parsing/extract.py:875-937 | going on in code behind a text is right, before every text a reader stops at, exactly if the text ends in code |
| CallTexts.BreakIsFirst | backend/app/parsing/extract.py:875-937 | a text without parentheses ends at the first position where, outside strings and brackets, a closing bracket, semicolon or line break stands |
| CallCompleteness.CallsAreFound | backend/app/parsing/extract.py:541-759 | where the scan is in step, a call in code is recorded if its name, which is a member or no keyword and not declared, does not begin in a text taken as it stands; without a line break before the last part of the name, exactly then |
| CallCompleteness.WordsAreFound | backend/app/parsing/extract.py:581-618 | the same, exactly, for every single word with any blanks and line breaks before its parenthesis |
| CallTexts.WordInChain | backend/app/parsing/extract.py:825-847 | a word inside a chain of members heads a name that ends where the chain does |
| CallCompleteness.CallsAreCode | backend/app/parsing/extract.py:541-759 | where the scan is in step, every recorded position is code, none is inside a string |
| CallSteps.CallsAreReady | backend/app/parsing/extract.py:875-937 | a reader without parentheses begins behind an `=` or a bare keyword, and if it took no interpolation and left some text it stopped in code |
| CallSteps.InStepOfText | backend/app/parsing/extract.py:541-759 | where no interpolation opens between an `=` or a bare keyword and the break behind it, the scan is in step everywhere |
| CallLimits.AssignmentHidesCall | backend/app/parsing/extract.py:654-668 | a call in a property assignment that is in code and not recorded |
| CallLimits.MisreadTemplate | backend/app/parsing/extract.py:909-937 | a text from which a call inside a string is recorded |
| CallLimits.MisreadBehind | backend/app/parsing/extract.py:654-668 | behind every right-hand side that does not end in code, some text makes the scanner record a call that is not code |
| CallLimits.RightHandSideIff | backend/app/parsing/extract.py:654-668 | a right-hand side keeps the scanner in step, whatever follows it, exactly if it ends in code |
| CallNames.CallsAreNamed | backend/app/parsing/extract.py:541-759 | every site is recorded under the last word and the text of the chain before it, without blanks and with `?.` as `.`, behind `new ` or the name of the call it is chained to; the chain begins where no word is joined to it, and what stands behind it makes the kind of the site |
| CallNames.NameIsWordBefore | backend/app/parsing/extract.py:609-612 | the name of every call is the word before its parenthesis; blanks, line breaks and at most one separator lie between them |
| CallLinks.LinksAreTaken | backend/app/parsing/extract.py:712-759 | `.next(` or `?.next(` behind a recorded call is recorded under the qualified name of that call |
| CallLinks.StraySeparator | backend/app/parsing/extract.py:825-847 | a call whose name has one more separator behind it |
| CallLinks.DeclaredIff | backend/app/parsing/extract.py:857-866 | a name is declared exactly if the word before it, blanks aside, is a declaration keyword |
| CallLinks.DeclaredMemberIsCalled | backend/app/parsing/extract.py:604-608 | a declaration of a qualified name that is recorded as a call of its last part |
| CallForms.AssignmentForm | backend/app/parsing/extract.py:654-668 | `a.b=text` is recorded with the trimmed right-hand side up to the break |
| CallForms.KeywordForm | backend/app/parsing/extract.py:637-652 | `keyword text` is recorded with the text up to the break |
| CallForms.BraceForm | backend/app/parsing/extract.py:622-635 | `name={text}` is recorded with the text between the braces |
| CallForms.CallForm | backend/app/parsing/extract.py:603-620 | `name(text)` is recorded with its text, followed by the calls in it, where keywords count as outside |
| CallForms.ChainForm | backend/app/parsing/extract.py:712-759 | `name(text).next(more)`: the chained call follows, and in its arguments no keyword counts |
| SplitMeaning.ClosesWhereBalanced | backend/app/parsing/extract.py:947-977 | outside literals the closing parenthesis is the first position at which as many close as opened |
| SplitMeaning.ClosingSkipsLiteral | backend/app/parsing/extract.py:947-977 | parentheses in a literal do not count |
| SplitMeaning.ReaderSkipsLiteral | backend/app/parsing/extract.py:875-937 | the reader without parentheses reads over a literal, line breaks and brackets in it included |
| TextSplit.SplitTopLevel | backend/app/parsing/extract.py:507-538 | the loop cuts the text at the separators outside strings and brackets and drops an empty last part |
| TextSplit.SplitRejoins | backend/app/parsing/extract.py:507-538 | joining the parts gives the text back, without a separator at its end |
| TextSplit.PartsDoNotSplit | backend/app/parsing/extract.py:507-538 | a non-empty part splits into itself |
| SplitMeaning.SplitAtSeparator | backend/app/parsing/extract.py:507-538 | a part, a separator and more text split into the part and the parts of the rest |
| SplitMeaning.LiteralIsSkipped | backend/app/parsing/extract.py:302-321 | brackets and separators in a literal do not count |
| SplitMeaning.BracketsClose | backend/app/parsing/extract.py:302-321 | something in brackets leaves the depth as it was |
| SplitMeaning.JoinsIff | backend/app/parsing/extract.py:288-299 | a line goes on exactly if a bracket is open, or the next is not blank and one of twelve endings or five beginnings joins them |
| TextSplit.Unmatched | backend/app/parsing/extract.py:302-321 | the number of brackets open at the end, read with the same string rules as the splitter |
| TextSplit.LogicalLines | backend/app/parsing/extract.py:272-285 | the groups are consecutive maximal statements with their start lines |
| TextSplit.GroupingRejoins | backend/app/parsing/extract.py:272-285 | no line is lost, moved or repeated |
| TextSplit.GroupingIsUnique | backend/app/parsing/extract.py:272-299 | the maximal grouping is unique, texts and start lines included |
| TrustedEvidence.SignatureNotSigned | backend/app/domain/trusted_evidence.py:219-240 | the fields that hold the signature, and the object's identity, are not under it |
| TrustedEvidence.MadeIsConstructed | backend/app/domain/trusted_evidence.py:196-216 | an observation whose construction did not raise carries its own valid signature, and its signed fields are those it was made from |
| TrustedEvidence.ConstructedIsTrusted | backend/app/domain/trusted_evidence.py:136-157 | every constructed observation is trusted |
| TrustedEvidence.IssueBinds | backend/app/domain/trusted_evidence.py:71-116 | issuing succeeds exactly on bound, well-formed input, gives a trusted observation bound to its arguments and keeps all other metadata |
| TrustedEvidence.RestoreIffSigned | backend/app/domain/trusted_evidence.py:160-182 | a plain record is restored exactly if its signature matches; restoring raises exactly if the signature is as long as the right one and not ASCII; otherwise the trust markers are gone |
| TrustedEvidence.RestoreCanRaise | backend/app/domain/trusted_evidence.py:196-216 | every well-formed plain record has a signature on which restoring raises |
| TrustedEvidence.RestoreStored | backend/app/domain/trusted_evidence.py:160-182 | storing and restoring an observation gives it back, trusted |
| TrustedEvidence.AlteredRecordIsNotRestored | backend/app/domain/trusted_evidence.py:160-182 | a record with a stored signature is restored exactly if it carries the signed identifier and no signed field changed beyond its canonical form; otherwise every trust marker is gone, and a runtime record's observed target too |
| TrustedEvidence.RestoreIsIdempotent | backend/app/domain/trusted_evidence.py:160-182 | restoring what was restored changes nothing |
| PolicyMeaning.RestoredIsOriginal | backend/app/domain/trusted_evidence.py:40-68 | a record restored as trusted under a stored signature agrees with the signed observation in its own fields and, up to blanks, in 27 metadata fields |
| PolicyMeaning.RestoredActsAsOriginal | backend/app/domain/trusted_evidence.py:160-189 | so it is bound to the same findings, contradicts and reproduces alike, and is the same event |
| LifecyclePolicy.IndependentVerificationItems | backend/app/domain/lifecycle_policy.py:108-157 | the two loops over recorded runs keep exactly the verifying items, in order |
| LifecyclePolicy.CanCorroborate | backend/app/domain/lifecycle_policy.py:160-203 | two different matching static observations, or one trusted bound runtime observation, and nothing else |
| LifecyclePolicy.CorroborationIsMonotone | backend/app/domain/lifecycle_policy.py:160-203 | more evidence never takes corroboration away |
| LifecyclePolicy.CorroborationIgnoresOrderAndCopies | backend/app/domain/lifecycle_policy.py:160-216 | order, copies, identifiers and time stamps do not matter |
| LifecyclePolicy.VerificationOfSum | backend/app/domain/lifecycle_policy.py:108-157 | evidence put together verifies exactly if one part has a verifying record whose run the other does not reproduce |
| LifecyclePolicy.VerificationSurvives | backend/app/domain/lifecycle_policy.py:108-157 | verification survives all additions but positive reproductions |
| LifecyclePolicy.VerificationLost | backend/app/domain/lifecycle_policy.py:122-156 | additions take verification away exactly if they reproduce the run of every verifying record and bring none whose run was not reproduced |
| PolicyMeaning.ContradictsIff | backend/app/domain/evidence.py:290-294 | a record contradicts exactly if it says so, or that the path was not reached |
| PolicyMeaning.PositiveIff | backend/app/domain/lifecycle_policy.py:72-93 | which outcomes and flags make a reproduction positive; no failure does |
| PolicyMeaning.BoundIff | backend/app/domain/lifecycle_policy.py:108-157 | which fields bind a record to a finding |
| PolicyMeaning.SameEventIff | backend/app/domain/evidence.py:212-287 | two records are the same event exactly if their own fields, seven event fields and the fields of their kind agree |
| PolicyMeaning.OneVerifiesIff | backend/app/domain/lifecycle_policy.py:21-34 | a server observation alone verifies exactly if it is of one of seven kinds, bound, and not contradicting |
| PolicyMeaning.OneCorroboratesIff | backend/app/domain/lifecycle_policy.py:160-201 | it corroborates exactly if it is one of those or an HTTP request |
| PolicyMeaning.TwoCorroborateIff | backend/app/domain/lifecycle_policy.py:160-201 | two unsigned records corroborate exactly if both are static or source, match the target, do not contradict, and differ |
| Findings.SemanticTargetIdentity | backend/app/domain/target_identity.py:17-58 | the loop takes the first non-empty value of each field among the static observations |
| PolicyMeaning.FirstOfIsFirst | backend/app/domain/target_identity.py:34-44 | each of five parts is that of the first static observation that has it |
| PolicyMeaning.SameTargetIff | backend/app/domain/target_identity.py:17-58 | two findings have the same target exactly if they agree in six fields of their own and those five |
| Findings.StampReproductions | backend/app/domain/findings.py:380-400 | each unstamped positive reproduction gets the target, a broken signature raises |
| LifecycleTheorems.RunStaysConstructible | backend/app/domain/findings.py:113-131 | the constructor's demands hold along every run |
| LifecycleTheorems.RunNeverDemotes | backend/app/domain/findings.py:137-256 | the status never goes down and rejection is final |
| LifecycleTheorems.RunKeepsEvidence | backend/app/domain/findings.py:137-256 | evidence only grows at the end; a record changes only by having an empty target filled in, once |
| LifecycleTheorems.StampingIsIdempotent | backend/app/domain/findings.py:380-400 | stamped evidence is not stamped again, whatever the target has become |
| LifecycleTheorems.TargetUnchanged | backend/app/domain/target_identity.py:35-43 | evidence without static items, or a target with every field set, leaves the target alone |
| LifecycleTheorems.TargetMovesIff | backend/app/domain/target_identity.py:17-58 | additions move the target exactly if a static one is the first to set one of its five parts |
| LifecycleTheorems.VerifyInconsistentIff | backend/app/domain/findings.py:137-165 | `verify` passes its guard and fails in the constructor exactly if the merged evidence verifies for the old target, the additions are the first to set some part of it, and nothing merged verifies for the new one |
| LifecycleTheorems.VerifyNeverFailsHalfway | backend/app/domain/findings.py:137-165 | with the target unchanged its guard implies the constructor's check |
| LifecycleTheorems.ReproduceInconsistentIff | backend/app/domain/findings.py:193-220 | `reproduce` does exactly if no signature breaks, a merged reproduction names the old target or none, the additions are the first to set some part of it, and no merged reproduction names the new one |
| LifecycleTheorems.ReproduceNeverFailsHalfway | backend/app/domain/findings.py:193-220 | with the target unchanged its guard implies the constructor's check |
| LifecycleTheorems.StatusAloneDecides | backend/app/domain/findings.py:222-256 | the second guard of `human_accept` is redundant; `reject` and `with_review` always succeed |
| LifecycleTheorems.VerifyCanFailHalfway | backend/app/domain/findings.py:137-165 | evidence that passes the guard of `verify` and is refused by the constructor, under every ordinary environment with injective hashes |
| LifecycleTheorems.ReproduceCanFailHalfway | backend/app/domain/findings.py:193-220 | the same for `reproduce`: an unstamped reproduction together with the first scope |
| LifecycleTheorems.VerificationCanBeLost | backend/app/domain/lifecycle_policy.py:122-156 | a response that verifies, and a reproduction of its execution that takes the verification away |
| PolicyMeaning.RunVerifiesByObservation | backend/app/domain/findings.py:137-165 | a finding that a run has verified holds a signed, bound run-time observation |
| PolicyMeaning.RunNeverVerifiesWithout | backend/app/domain/findings.py:137-165 | over every run a finding is never verified on AI text, static analysis, source, tests, reproductions, logs or screenshots alone |
| PolicyMeaning.TransitionWrites | backend/app/domain/findings.py:137-260 | the status, review, tier and evidence after every successful transition; nothing else changes |
| PolicyMeaning.RefusedStatuses | backend/app/domain/findings.py:137-260 | the statuses from which each transition is refused |
| PolicyMeaning.RunKeepsTier | backend/app/domain/findings.py:137-260 | over every run the evidence tier goes with the status |
| AiErasure.EraseVerifying | backend/app/domain/lifecycle_policy.py:138-156 | AI text never makes or breaks verification |
| AiErasure.EraseCorroborates | backend/app/domain/lifecycle_policy.py:185-203 | nor corroboration |
| AiErasure.EraseStamped | backend/app/domain/findings.py:380-400 | stamping commutes with erasing AI text |
| AiErasure.ApplyErased | backend/app/domain/findings.py:137-256 | a transition commutes with erasing AI text: same refusal or same finding |
| AiErasure.RunErased | backend/app/domain/findings.py:137-256 | over every run the statuses are those reached without AI text |
| AiErasure.AiHypothesisNeverAdvances | backend/app/domain/findings.py:277-295 | from AI text alone a potential finding can only be rejected |
| Scheduler.OrderForIsPermutation | backend/app/discovery/scheduler.py:616-641 | reordering repeats no engine, drops none and adds only the wanted ones |
| Scheduler.EngineOrder | backend/app/discovery/scheduler.py:616-641 | the branches on the missing capability give the order of that capability, and no engine is in it twice |
| Scheduler.RunIdsDistinct | backend/app/discovery/scheduler.py:73-99 | engines selected from an order without repeats do not repeat |
| Scheduler.FollowupIsShort | backend/app/discovery/scheduler.py:364-416 | a follow-up plans at most two engines, both registered and different |
| Scheduler.DiscoveryScheduler.Select | backend/app/discovery/scheduler.py:73-99 | one decision per engine of the order; the budget stops exactly those beyond the room left |
| Scheduler.DiscoveryScheduler.NoteResult | backend/app/discovery/scheduler.py:119-199 | feedback, seeds and coverage numbers after a result; the budget is untouched |
| Scheduler.DiscoveryScheduler.RunSelected | backend/app/discovery/scheduler.py:101-117 | starts exactly the selected engines, each once and by its own entry, within the budget, and learns from each result in order; the inner budget check skips none |
| Scheduler.DiscoveryScheduler.RunEngine | backend/app/discovery/scheduler.py:327-362 | starts the engine by its own entry and counts it only if it executed; refuses, starting and learning nothing, when the budget is spent or the engine unknown |
| Scheduler.DiscoveryScheduler.PlanFollowup | backend/app/discovery/scheduler.py:364-416 | the plan depends on what was learned and is noted down |
| Scheduler.DiscoveryScheduler.RunFollowup | backend/app/discovery/scheduler.py:418-459 | starts as many of the planned engines as the budget allows, in order, each by its entry and under its own request |
| SchedulerMeaning.RunsIff | backend/app/discovery/scheduler.py:254-310 | an engine runs exactly if it knows the language, its own condition holds and it is installed |
| SchedulerMeaning.ReasonIs | backend/app/discovery/scheduler.py:254-310 | which reason is given for an engine that does not run |
| SchedulerMeaning.MissingIsFirst | backend/app/discovery/scheduler.py:502-533 | the missing capability is the first of ten that is wanted and was not exercised |
| SchedulerMeaning.OtherOrders | backend/app/discovery/scheduler.py:616-619 | the orders of the other languages |
| SchedulerMeaning.SolidityOrders | backend/app/discovery/scheduler.py:616-641 | the whole order of Solidity for each missing capability |
| SchedulerMeaning.LabelIs | backend/app/discovery/scheduler.py:598-613 | the capability that an engine without a claim is credited with |
| SchedulerMeaning.ExercisedIff | backend/app/discovery/scheduler.py:580-595 | what did not run is no evidence, and of failures only those that executed |
| SchedulerMeaning.LearnedFeedback | backend/app/discovery/scheduler.py:119-199 | every feedback field after a result |
| SchedulerMeaning.LearnedSeeds | backend/app/discovery/scheduler.py:119-199 | which seeds a result adds, from minimised inputs only |
| SchedulerMeaning.GrowthIff | backend/app/discovery/scheduler.py:201-223 | a claim decides about growth; otherwise the last number under the same key does |
| SchedulerMeaning.SameKeyIff | backend/app/discovery/scheduler.py:482-499 | numbers are compared exactly if all eleven parts agree, as long as no part holds a line break |
| SchedulerMeaning.KeysCollide | backend/app/discovery/scheduler.py:482-499 | with a line break in a target, different targets share a key |
| SchedulerMeaning.ByIdIsLast | backend/app/discovery/scheduler.py:73-85 | a table of engines keeps the last of those that share an identifier |
| SchedulerMeaning.FirstByIdIsFirst | backend/app/discovery/scheduler.py:321-325 | the search through the engines finds the first of them |
| SchedulerMeaning.FollowupIs | backend/app/discovery/scheduler.py:364-416 | which engines a follow-up plans, in which order, and whether they run |
| SchedulerMeaning.TargetedIs | backend/app/discovery/scheduler.py:434-450 | the request that a follow-up engine gets |
| SchedulerMeaning.EntryIff | backend/app/discovery/scheduler.py:451-456 | which of its two entries an engine is started by |
| SolidityArguments.ParametersRoundTrip | backend/app/parsing/solidity_arguments.py:116-136 | the types written into a header, nested tuples included, are the types read from it |
| SolidityArguments.TupleCandidates | backend/app/parsing/solidity_arguments.py:206-216 | a tuple type is supported exactly if all its components are, and its literal is made of the first literal of each, in order |
| SolidityArguments.CandidatesForType | backend/app/parsing/solidity_arguments.py:61-67 | on every type text, no answer or the first of its candidates: as many as `limit` asks for, at least one and at most four |
| SolidityLiterals.UintLiterals | backend/app/parsing/solidity_arguments.py:139-205 | three literals if the width is a multiple of 8 up to 256, none otherwise |
| SolidityLiterals.IntLiterals | backend/app/parsing/solidity_arguments.py:139-205 | four literals under the same condition |
| SolidityLiterals.BytesLiterals | backend/app/parsing/solidity_arguments.py:139-205 | one literal for 1 to 32 bytes, none otherwise |
| SolidityLiterals.BoolLiterals | backend/app/parsing/solidity_arguments.py:139-205 | both truth values |
| SolidityLiterals.AddressLiterals | backend/app/parsing/solidity_arguments.py:139-205 | two addresses |
| SolidityLiterals.ByteStringLiterals | backend/app/parsing/solidity_arguments.py:139-205 | the empty byte string and one byte |
| SolidityLiterals.NameLiterals | backend/app/parsing/solidity_arguments.py:139-205 | enums, contracts and capitalised names; other names are not supported |
| SolidityLiterals.RefusedTypes | backend/app/parsing/solidity_arguments.py:139-141 | mappings, functions and the empty text are not supported |
| SolidityLiterals.ArrayLiterals | backend/app/parsing/solidity_arguments.py:139-205 | an array is supported exactly if its element is and it is open or of length 1, with literals made of the first of the element |
| SolidityArguments.SplitArgs | backend/app/parsing/solidity_arguments.py:222-237 | the loop gives the parts between top-level commas |
| SolidityArguments.Combine | backend/app/parsing/solidity_arguments.py:81-97 | fails exactly when some type is unsupported; otherwise zips the columns, with as many rows as the longest |
| SolidityArguments.EveryCandidateIsUsed | backend/app/parsing/solidity_arguments.py:81-97 | every candidate of every parameter stands in its position in some row |
| FindingKeys.CanonicalizeLegacyFindingKeys | backend/alembic/versions/022_phase20_finding_key.py:76-98 | of the sorted rows the first with a project and key keeps the key, every other row loses it in column and JSON |
| FindingKeys.SortedIsOrdered | backend/alembic/versions/022_phase20_finding_key.py:83-83 | the rows are put in order of creation date and identifier; none is lost or repeated |
| FindingKeys.TextLeqIff | backend/alembic/versions/022_phase20_finding_key.py:83-83 | one text begins the other, or the first difference decides |
| FindingKeys.KeyIs | backend/alembic/versions/022_phase20_finding_key.py:84-104 | the key of a row is the column's or, if that is blank, the one in the JSON text |
| FindingKeys.RowsAreKept | backend/alembic/versions/022_phase20_finding_key.py:76-98 | every row comes back with its identity, project and date |
| FindingKeys.KeysAreUnique | backend/alembic/versions/022_phase20_finding_key.py:76-98 | no two rows that keep a key share project and key |
| FindingKeys.SurvivorIsLeast | backend/alembic/versions/022_phase20_finding_key.py:76-98 | the row that keeps a key is the least of those that share it, all others lose it |
| FindingKeys.KeySurvives | backend/alembic/versions/022_phase20_finding_key.py:76-98 | no key disappears altogether |
| FindingKeys.JsonFollowsColumn | backend/alembic/versions/022_phase20_finding_key.py:76-113 | column and JSON agree afterwards, other JSON fields are kept |
| FindingKeys.CanonicalizingAgainChangesNothing | backend/alembic/versions/022_phase20_finding_key.py:76-113 | a second run changes nothing |

## Left out

- Comments.StripComments: requires that no line marker stands at a line break in code, because the source does not advance there.
- Comments.StripInterpolation: requires the same of the region it reads.
- CommentLexer.StripIsIdempotent: for markers and delimiters without blanks and line breaks; the exact condition is proved for lone markers only.
- CallCompleteness.CallsAreFound: says nothing of calls behind a text taken without parentheses that does not end in code, up to the end of what that scan reads, because the scan is out of step there. Of a name that goes on behind a line break and begins in a taken text it does not say whether its last part is recorded; that part, or the rest of the name from behind the break, is a name of its own.
- CallCompleteness.CallsAreCode: likewise.
- TrustedEvidence.AlteredRecordIsNotRestored: for well-formed plain records that carry the stored signature, under an injective MAC and digest.
- Scheduler.DiscoveryScheduler.RunEngine: the result an engine reports is arbitrary, because engine bodies are not modelled; which of its two entries is used is recorded.
- SolidityArguments.Candidates: `int()` on more than 4300 digits, which raises ValueError, is not modelled.
- SolidityLiterals.ArrayLiterals: for type texts without blanks; `_ARRAY` is matched against the text without spaces.
- PolicyMeaning.RestoredActsAsOriginal: for fields that whitespace normalisation leaves alone, because the signature is over the normalised fields and the policies read them as they stand.
- CallForms.AssignmentForm: a name of two words at the beginning of a text, and a right-hand side without strings and brackets; likewise the other forms.
- FindingKeys.CanonicalizingAgainChangesNothing: for a JSON codec that reads back what it wrote and an idempotent strip.
- Line numbers and the `dynamic` flag of call sites; `_is_dynamic`, `_mask_strings`. The kind and the positions of a site are not in the source, they make its place in the text expressible.
- The regex-driven parts: imports, entities, bindings, language profiles. The identifier pattern and the keyword sets are parameters of the scanner.
- String delimiters of the stripper are single characters, as all profiles have them.
- Insides of SHA-256, HMAC, JSON text, UUIDs, clocks and text normalisation: functions in `Env` and `Codec`, opaque identifiers.
- Restoring an observation object that was never constructed; `issue_for_finding`; secret lookup and constant-time comparison.
- `verified()` adopting an identifier from signed evidence, and the other class methods that build findings from scratch.
- Fields of a finding that no guard, target or transition reads (confidence, notes, locations beyond the path).
- `function_selector` and UTF-8 encoding.
- The corpus beyond which kinds of seed it holds, sequences, and the reasons in the text of scheduler notes (the decision and the engine are kept). Coverage numbers are reals; `nan` and texts that are no number count as absent.
- `derive_from_state` and `preferred_literal`: one lookup each.
- AI providers, the MCP server, HTTP, the database models, the other migrations, executors, subprocesses and files.
