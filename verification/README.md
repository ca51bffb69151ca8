# JSON-like scanner and parser, modelled in Dafny

This project models the two stages of a small compiler front end for a
JSON-like language:

- **The DFA scanner** (`JSONScannerDFA`). It keeps a cursor and a state
  name over the input text. Each `get_next_token` call skips whitespace,
  dispatches on the character under the cursor through a transition table,
  and returns one token, `None` at end of input, or raises
  `ScannerError(position, text)`.
- **The recursive-descent parser.** It walks a token list with a global
  index and builds a `ParseTreeNode` tree (a label plus ordered children).
  It applies seven numbered semantic checks as it goes:
  1. malformed decimal;
  2. empty key;
  3. leading zero;
  4. reserved key;
  5. duplicate key;
  6. mixed array;
  7. reserved string value.
- **`parse_tokens`**, which reads the scanner's `<KIND, value>` lines back
  into tokens, and **`print_tree`**, which prints the tree in pre-order.

How the model is laid out, module by module:

- **Text.** The character classes and string predicates both stages share.
  `isdigit`, `isspace` and `lower` are modelled on ASCII.
- **Scanner.** An imperative class `JsonScannerDfa`, with the input, the
  cursor and the state as fields. Each method is proved to compute `Step`,
  a pure function describing one `get_next_token` call.
- **ScannerFacts.** What `Step` promises for every text, cursor and
  state: the token or error produced by each kind of character, end of
  input, and the kinds of the tokens.
- **Trees.** The tree the parser builds:
  - a tagged tree `Json`, which keeps the kind of every literal, and
    `ToNode`, which turns it into the source's `ParseTreeNode` shape;
  - `Render`, the printing, and `PrintTree`, its loop.
- **Grammar.** The parser as functions over the token list and an index.
  Each function returns the value it recognised and the next index, or the
  first error. A current token of `None` becomes an explicit
  `EndOfTokens` syntax error.
- **Parser.** An imperative class `ParserState` that holds the token list
  and the index; these are globals in the source. Its `Match` and
  `Parse...` methods, with their comma loops, are each proved to return
  what the matching Grammar function returns, and to leave the index
  where that function says. The comma loops of `parse_object` and
  `parse_array`, with the closing token after them, are methods of their
  own (`ParseMembers`, `ParseElements`), as they are functions of their
  own in Grammar.
- **GrammarFacts.** What every successful parse guarantees:
  - the semantic invariants of the tree;
  - the position-dependent kind tag of BOOLEAN/NULL literals, and its
    consequence that no array of two or more elements holding one is
    accepted;
  - tokens after the root's closing token are never read.
- **GrammarComplete.** The converse of GrammarFacts: the tokens that
  spell out an object or array with those invariants parse back to that
  very tree. Together the two make the invariants an exact description of
  the trees `parse` returns.
- **GrammarErrors.** What every failed parse means: each semantic error
  is raised on a token of the list on which its check fails, and the
  checks are tried in the source's order.
- **GrammarExamples.** Concrete token lists for each error and for inputs
  the checks let through.
- **TokenLines.** `parse_tokens`:
  - `splitlines`, `strip("<>")` and `split(", ")` are modelled exactly;
  - the `<KIND, value>` writer format;
  - the round trip, under the conditions that make it hold, and concrete
    inputs for which it fails.
- **Pipeline.** Repeated `get_next_token` calls always end; scanning a
  text, writing its tokens and reading them back gives the same tokens,
  provided the text's STRING tokens are safe for the line format.

Three behaviours of the code that a reader might not expect:

- **Unterminated string.** No error is raised. The rest of the text
  becomes a STRING, and the cursor ends at length + 1
  (`ScannerFacts.StepString`).
- **BOOLEAN/NULL kind tag.** One might expect arrays to be monomorphic
  over the tags STRING, NUMBER, BOOLEAN, NULL, OBJECT and ARRAY. In the
  code, the tag `parse_value` returns for a BOOLEAN or NULL is the kind of
  the token after the literal (Parser/parser.py:118). So `[true, false]`
  and `[null, null]` fail with error 6, and only one-element arrays can
  hold a literal (`GrammarFacts.ParseRejectsLiteralsInLongArrays`,
  `GrammarExamples.TrueFalseRejected`).
- **Token-text round trip.** The round trip does not hold for every
  successful scan. Three things break it:
  - `parse_tokens` cuts a STRING value at its first ", "
    (`TokenLines.ValueCutAtSeparator`);
  - it strips a trailing `<` or `>` (`TokenLines.TrailingAngleStripped`);
  - a line break inside a value splits the line in two
    (`TokenLines.LineBreakInValueSplits`).

  The model proves the round trip under exactly the conditions that
  exclude these (`TokenLines.RoundTrip`, `Pipeline.ScanWriteRead`).

## Model

| member | source | states |
|---|---|---|
| Text.Lower | Parser/parser.py:82 | `lower()` on ASCII: same length, each character lower-cased by `LowerChar` |
| Text.LowerChar | Parser/parser.py:82 | capitals move to the lower-case letter 32 code points up; all other characters are unchanged |
| Text.BlankIsNotReserved | Parser/parser.py:80-83 | a blank key is never reserved, so errors 2 and 4 never compete for one key |
| Text.ReservedIgnoresCase | Parser/parser.py:82-83 | two texts equal up to ASCII case are both reserved or both not |
| Text.ReservedIsCaseVariant | Parser/parser.py:82 | `IsReserved`, the test `lower() in ["true", "false", "null"]` holds exactly for the case variants of the three words, such as "True" or "NULL"; the same test guards string values at line 107 |
| Text.CharClasses | Scanner/scanner.py:66 | `IsDigit` (`isdigit`) holds exactly for the ten decimal digits and `IsSpace` (`isspace`) exactly for the ten ASCII whitespace characters; no character is both, and lower-casing changes neither |
| Text.BlankIsAllSpace | Parser/parser.py:80 | `IsBlank`: a key is blank exactly when every character is whitespace, so the `== ""` test adds nothing; blank texts stay blank when joined |
| Scanner.Lookup | Scanner/scanner.py:27-41 | `transitions.get(..., "INVALID")`: INVALID exactly when the (state, input) pair has no entry |
| ScannerFacts.TransitionKeys | Scanner/scanner.py:27-41 | `Transitions`, the table, has an entry exactly for the eleven characters and the digit class from START, and for the closing quote inside a string |
| ScannerFacts.TransitionTargets | Scanner/scanner.py:27-41 | no entry leads to START or INVALID, so a lookup result of INVALID always means a missing entry; a digit leads from START to IN_NUMBER and from nowhere else |
| Scanner.Slice | Scanner/scanner.py:117-121 | Python slicing clamps at the end of the text |
| Scanner.SkipSpaces | Scanner/scanner.py:136-138 | the cursor stops at the first non-whitespace position at or after it; every skipped character is whitespace; past the end it does not move |
| ScannerFacts.BlankIsSkipped | Scanner/scanner.py:136-138 | a text is blank, in the sense of the empty-key check, exactly when whitespace skipping runs through all of it |
| Scanner.QuoteEnd | Scanner/scanner.py:99-101 | the first double quote at or after the cursor, or the length; no quote before it |
| Scanner.NumberEnd | Scanner/scanner.py:109-111 | the end of the maximal run of digits, '.' and '-' |
| Scanner.BooleanAt | Scanner/scanner.py:115-125 | a token exactly when "true" or "false" lies wholly in the text at the cursor; it is a BOOLEAN holding that word, and the cursor moves past the word; otherwise an error at the unchanged cursor quoting at most five characters; never end of input |
| Scanner.NullAt | Scanner/scanner.py:128-133 | a token exactly when "null" lies wholly in the text at the cursor; it is the NULL token, and the cursor moves by 4; otherwise an error at the unchanged cursor quoting at most four characters |
| Scanner.Step | Scanner/scanner.py:56-92 | the cursor never moves back; a call that returns a token moves it forward by at least one and to at most length + 1; a call that returns none or fails, starting with the cursor within the text, leaves it within the text |
| Scanner.JsonScannerDfa.constructor | Scanner/scanner.py:21-24 | the input is stored, the cursor is 0, the state is START |
| Scanner.JsonScannerDfa.Reset | Scanner/scanner.py:44-46 | state START and cursor 0; the input is a constant, so nothing else changes |
| Scanner.JsonScannerDfa.GetNextToken | Scanner/scanner.py:56-92 | result, new cursor and new state are those of `Step` on the old cursor and state |
| Scanner.JsonScannerDfa.ReadString | Scanner/scanner.py:95-104 | the value runs from after the opening quote to the next quote (or the end); the cursor ends one past that point |
| Scanner.JsonScannerDfa.ReadNumber | Scanner/scanner.py:107-112 | the value is the maximal number run at the cursor, and the cursor ends after it |
| Scanner.JsonScannerDfa.ReadBoolean | Scanner/scanner.py:115-125 | result and cursor as `BooleanAt`: "true" or "false" with the cursor moved by 4 or 5, else an error at the unchanged cursor |
| Scanner.JsonScannerDfa.ReadNull | Scanner/scanner.py:128-133 | result and cursor as `NullAt`: "null" with the cursor moved by 4, else an error at the unchanged cursor |
| Scanner.JsonScannerDfa.SkipWhitespace | Scanner/scanner.py:136-138 | the cursor ends where `SkipSpaces` says |
| ScannerFacts.SkipSpacesStopsAt | Scanner/scanner.py:136-138 | whitespace skipping stops at the first non-whitespace character |
| ScannerFacts.PunctuationInTable | Scanner/scanner.py:27-33 | each of `{}:,[]` has a table entry whose name is its token kind, so the INVALID branch at line 79 never fires |
| ScannerFacts.StepAtEnd | Scanner/scanner.py:57-61 | `None` exactly when only whitespace remains; the cursor is then at the end and the state unchanged |
| ScannerFacts.StepPunctuation | Scanner/scanner.py:76-81 | punctuation gives the one-character token of its kind and moves the cursor one past it |
| ScannerFacts.StepString | Scanner/scanner.py:73-75 | the STRING value is the quote-free text up to the next quote; the cursor is at length + 1 exactly when no closing quote exists, and no error is raised |
| ScannerFacts.StepNumber | Scanner/scanner.py:67-72 | a NUMBER is the maximal non-empty run of digits, '.' and '-' starting at the cursor |
| ScannerFacts.SliceIsWord | Scanner/scanner.py:117-121 | a clamped slice equals a word exactly when the word lies wholly inside the text there |
| ScannerFacts.StepBoolean | Scanner/scanner.py:115-125 | "true" or "false" gives a BOOLEAN and moves the cursor by 4 or 5; otherwise an error at the unchanged cursor quoting up to five characters |
| ScannerFacts.StepNull | Scanner/scanner.py:128-133 | "null" gives NULL and moves the cursor by 4; otherwise an error at the unchanged cursor |
| ScannerFacts.StepUnexpected | Scanner/scanner.py:91-92 | any other character is an error naming that character at its own position; cursor and state unchanged |
| ScannerFacts.StepKinds | Scanner/scanner.py:56-92 | every emitted token has one of the ten kinds; a STRING value holds no quote |
| Trees.PairNodesAt | Parser/parser.py:58-68 | an object's i-th child is the pair node of its i-th member |
| Trees.ElementNodesAt | Parser/parser.py:137-144 | an array's i-th child is the node of its i-th element |
| Trees.Tag | Parser/parser.py:104-124 | a literal reports its recorded tag; every other value reports one of OBJECT, ARRAY, STRING and NUMBER, and each of these names exactly one constructor |
| Trees.PairNode | Parser/parser.py:74-98 | a pair node has the shape `parse_object` relies on, and the key it reads back at lines 54 and 64 is the member's key; the value node holds the value's node |
| Trees.ToNode | Parser/parser.py:104-124 | objects and arrays give `object` and `array` nodes with one child per member or element; every scalar gives a leaf holding its text |
| Trees.ToNodeShape | Parser/parser.py:74-98 | object children are pair nodes in order; each has a `key` node over one leaf holding the key, then a `value` node over the value's node; array children are the elements in order; scalars are leaves |
| Trees.Indent | Parser/parser.py:26 | two spaces per level |
| Trees.RenderIsPreOrder | Parser/parser.py:25-29 | the printing is one indented line per node, in pre-order; there are as many lines as nodes |
| Trees.RenderAllIsPreOrder | Parser/parser.py:27-28 | the same for a list of siblings |
| Trees.RenderLine | Parser/parser.py:25-29 | `Render`: a node's printing starts with its label at two spaces per level and ends with a line break |
| Trees.RenderAllLines | Parser/parser.py:27-28 | the printing of the children is empty exactly when there are none, and otherwise ends with a line break |
| Trees.PrintTree | Parser/parser.py:25-29 | the loop over the children computes `Render` |
| Grammar.Match | Parser/parser.py:32-43 | succeeds exactly on the expected kind, returning the token's value and the index plus one; otherwise `EndOfTokens` or `Expected(expected, found)` |
| Grammar.Message | Parser/parser.py:56-143 | every semantic error's message starts with "Error type ", its number, then ": "; the messages of checks 1, 3, 4, 5 and 7 quote the offending text after the words of the check |
| Grammar.ValidDecimalShape | Parser/parser.py:112 | check 1 (`IsInvalidDecimal`) passes exactly the texts without a '.' and the texts made of two non-empty '.'-free parts around a single '.' |
| Grammar.IntegerPart | Parser/parser.py:114 | the text before the first '.' (or all of it): a prefix without '.', followed by a '.' when shorter than the text |
| Grammar.LeadingZeroInIntegerPart | Parser/parser.py:114 | check 3 (`HasLeadingZero`) fires exactly when the text before the first '.' is longer than one character and starts with '0' |
| Grammar.ParseValue | Parser/parser.py:104-124 | on success the next index is past the start and within the list |
| Grammar.ParseObject | Parser/parser.py:47-71 | on success an object and an index within the list |
| Grammar.MembersRest | Parser/parser.py:61-68 | on success an object and an index within the list |
| Grammar.ParsePair | Parser/parser.py:74-98 | on success the next index is past the start and within the list |
| Grammar.ParseArray | Parser/parser.py:130-147 | on success an array and an index within the list |
| Grammar.ElementsRest | Parser/parser.py:139-144 | on success an array and an index within the list |
| Grammar.Parse | Parser/parser.py:152-164 | an empty list is `EndOfTokens`; a first token other than `{` or `[` is `InvalidRoot`; success gives an object exactly for `{` and an array exactly for `[` |
| GrammarFacts.ValueRecognised | Parser/parser.py:104-124 | a parsed value satisfies the invariants; a literal's tag is the kind at the next index |
| GrammarFacts.ObjectRecognised | Parser/parser.py:47-71 | a parsed object satisfies the invariants |
| GrammarFacts.MembersRestRecognised | Parser/parser.py:61-68 | the comma loop keeps keys distinct and every member valid |
| GrammarFacts.PairRecognised | Parser/parser.py:74-98 | a parsed key is neither blank nor reserved, and its value satisfies the invariants |
| GrammarFacts.ArrayRecognised | Parser/parser.py:130-147 | a parsed array satisfies the invariants |
| GrammarFacts.ElementsRestRecognised | Parser/parser.py:139-144 | the comma loop keeps every element at the first element's tag |
| GrammarFacts.ParseRecognised | Parser/parser.py:152-164 | every accepted tree: within each object the keys are pairwise distinct, non-blank and not reserved; no string value is reserved; every number passes checks 1 and 3; all elements of an array share the first element's tag; and each BOOLEAN/NULL literal is tagged COMMA when followed by another entry, or its container's closing kind when it is last |
| GrammarFacts.LongArraysHoldNoLiterals | Parser/parser.py:117-118 | in a tree with those invariants, no array of two or more elements holds a BOOLEAN or NULL |
| GrammarFacts.ParseRejectsLiteralsInLongArrays | Parser/parser.py:117-118 | no accepted tree has an array of two or more elements holding a BOOLEAN or NULL |
| GrammarFacts.RecognisedIsHomogeneous | Parser/parser.py:141-143 | in a tree with the invariants, the elements of every array are all objects, all arrays, all strings, all numbers, or a single BOOLEAN/NULL |
| GrammarFacts.ParseIsHomogeneous | Parser/parser.py:139-145 | the same holds for every accepted tree |
| GrammarFacts.ValueAgree | Parser/parser.py:104-124 | a value parses the same in any list that agrees up to its end (and on the token after a literal) |
| GrammarFacts.ObjectAgree | Parser/parser.py:47-71 | an object parses the same in any list that agrees up to its closing brace |
| GrammarFacts.MembersRestAgree | Parser/parser.py:61-69 | the comma loop of an object reads no token past the closing brace |
| GrammarFacts.PairAgree | Parser/parser.py:74-98 | a pair parses the same in any list that agrees up to its end |
| GrammarFacts.ArrayAgree | Parser/parser.py:130-147 | an array parses the same in any list that agrees up to its closing bracket |
| GrammarFacts.ElementsRestAgree | Parser/parser.py:139-145 | the comma loop of an array reads no token past the closing bracket |
| GrammarFacts.RootEnd | Parser/parser.py:152-164 | the root of an accepted list ends within the list |
| GrammarFacts.RootEndCloses | Parser/parser.py:152-164 | the root's last token is `}` for an object root and `]` for an array root |
| GrammarFacts.ObjectClosesAt | Parser/parser.py:69 | a parsed object ends with RIGHT_BRACE |
| GrammarFacts.MembersRestClosesAt | Parser/parser.py:61-69 | the comma loop of an object ends with RIGHT_BRACE |
| GrammarFacts.ArrayClosesAt | Parser/parser.py:145 | a parsed array ends with RIGHT_BRACKET |
| GrammarFacts.ElementsRestClosesAt | Parser/parser.py:139-145 | the comma loop of an array ends with RIGHT_BRACKET |
| GrammarFacts.ParseIgnoresTrailingTokens | Parser/parser.py:152-164 | any list that agrees with an accepted list up to the root's closing token parses to the same tree |
| GrammarFacts.ParseOfPrefixAndExtension | Parser/parser.py:152-164 | cutting the list after the root, or appending anything, does not change the result |
| GrammarErrors.ValueChecks | Parser/parser.py:104-115 | on a STRING value, error 7 exactly for a reserved text, otherwise the string; on a NUMBER, error 1 for an invalid decimal before error 3 for a leading zero, otherwise the number (so "00." gives 1) |
| GrammarErrors.KeyChecks | Parser/parser.py:77-96 | a key that is not a STRING is a syntax error; a blank STRING key gives error 2 before a reserved one gives error 4; a pair parses only with a valid STRING key |
| GrammarErrors.MembersRestOrder | Parser/parser.py:61-68 | in one round of the object loop the pair's own error is reported first; a pair that parses with a key already seen gives error 5 with that key; a fresh key continues the loop with the key and member added |
| GrammarErrors.ElementsRestOrder | Parser/parser.py:139-144 | in one round of the array loop the element's own error is reported first; an element whose tag differs from the first gives error 6; a matching one continues the loop |
| GrammarErrors.PairKeyAt | Parser/parser.py:74-98 | a parsed pair's key is the STRING token at its start, followed by its COLON, and is neither blank nor reserved |
| GrammarErrors.ValueExplains | Parser/parser.py:104-124 | every semantic error of `parse_value` is raised on a token of the list on which its check fails |
| GrammarErrors.PairExplains | Parser/parser.py:74-98 | the same for `parse_pair` |
| GrammarErrors.ObjectExplains | Parser/parser.py:47-71 | the same for `parse_object` |
| GrammarErrors.MembersRestExplains | Parser/parser.py:61-69 | the same for the object loop, given that the keys seen stand as valid keys earlier in the list; error 5 names a valid key that stands as a key at two positions |
| GrammarErrors.ArrayExplains | Parser/parser.py:130-147 | the same for `parse_array` |
| GrammarErrors.ElementsRestExplains | Parser/parser.py:139-145 | the same for the array loop; error 6 carries no text and occurs only where a comma does |
| GrammarErrors.ParseErrorExplained | Parser/parser.py:152-164 | every semantic error of `parse`: 1 on a NUMBER that is not a valid decimal, 2 on a blank STRING, 3 on a NUMBER with a leading zero that passed check 1, 4 on a reserved non-blank STRING, 5 on a valid key standing as a key twice, 6 with no text, 7 on a reserved STRING |
| GrammarComplete.ValueComplete | Parser/parser.py:104-124 | the tokens of a value with the invariants (and, for a literal, its tag as the next kind) parse to that value and end where its tokens end |
| GrammarComplete.PairComplete | Parser/parser.py:74-98 | the tokens of a pair with a non-blank, non-reserved key and a valid value parse to that member |
| GrammarComplete.ObjectComplete | Parser/parser.py:47-71 | the tokens of an object with the invariants parse to that object |
| GrammarComplete.FirstMember | Parser/parser.py:51-58 | after the brace and the first pair, the parse of the object is the comma loop with the first key recorded |
| GrammarComplete.MemberRound | Parser/parser.py:61-68 | one round of the comma loop moves past the next member and collects it, with its fresh key |
| GrammarComplete.MembersRestComplete | Parser/parser.py:61-69 | the comma loop over the remaining members ends at the closing brace with the whole object |
| GrammarComplete.ArrayComplete | Parser/parser.py:130-147 | the tokens of an array with the invariants parse to that array |
| GrammarComplete.FirstElement | Parser/parser.py:134-137 | after the bracket and the first value, the parse of the array is the comma loop with that value's tag |
| GrammarComplete.ElementRound | Parser/parser.py:139-144 | one round of the comma loop moves past the next element, whose tag matches, and collects it |
| GrammarComplete.ElementsRestComplete | Parser/parser.py:139-145 | the comma loop over the remaining elements ends at the closing bracket with the whole array |
| GrammarComplete.ParseComplete | Parser/parser.py:152-164 | the converse of `GrammarFacts.ParseRecognised`: the tokens of an object or array with the invariants parse back to that very tree |
| GrammarComplete.ParseTokensOfTree | Parser/parser.py:152-164 | the tokens of an object or array parse back to it exactly when it satisfies the invariants |
| GrammarExamples.InvalidDecimals | Parser/parser.py:112-113 | `.5`, `0.` and `1.2.3` fail with error 1 |
| GrammarExamples.LeadingZeros | Parser/parser.py:114-115 | `01` and `00` fail with error 3 |
| GrammarExamples.ZeroPointAccepted | Parser/parser.py:114 | `0.5` is accepted |
| GrammarExamples.SignedLeadingZeroAccepted | Parser/parser.py:114-115 | `-01` is accepted |
| GrammarExamples.InnerMinusAccepted | Parser/parser.py:112-116 | `1-2` is accepted |
| GrammarExamples.BadKeys | Parser/parser.py:78-96 | keys "" and " \t" fail with error 2, "True" with error 4, and a NUMBER key is a syntax error |
| GrammarExamples.DuplicateKey | Parser/parser.py:63-66 | `{"a": 1, "a": 2}` fails with error 5 |
| GrammarExamples.ValueErrorBeforeDuplicate | Parser/parser.py:63-66 | in `{"a": 1, "a": 01}` the value's error 3 is reported, not the duplicate |
| GrammarExamples.KeyWithoutValue | Parser/parser.py:79-80 | a key token with no value stops the parse with an error |
| GrammarExamples.NestedKeys | Parser/parser.py:47-49 | `{"a": {"a": 1}}` is accepted: keys are tracked per object |
| GrammarExamples.ReservedStrings | Parser/parser.py:105-109 | the string value "NULL" fails with error 7; "x" is accepted |
| GrammarExamples.SameKindArray | Parser/parser.py:130-147 | `[1, 2, 3]` is accepted, elements in order |
| GrammarExamples.MixedArray | Parser/parser.py:141-143 | `[1, "x"]` fails with error 6 |
| GrammarExamples.EmptyContainers | Parser/parser.py:135-145 | `[]` and `{}` are accepted with no children |
| GrammarExamples.TrueFalseRejected | Parser/parser.py:117-118 | `[true, false]` fails with error 6 |
| GrammarExamples.NullNullRejected | Parser/parser.py:117-118 | `[null, null]` fails with error 6 |
| GrammarExamples.SingleLiteralAccepted | Parser/parser.py:117-118 | `[true]` is accepted, the literal tagged RIGHT_BRACKET |
| GrammarExamples.EndOfTokensInObject | Parser/parser.py:61 | a list ending inside an object fails with `EndOfTokens` |
| GrammarExamples.SyntaxErrors | Parser/parser.py:152-164 | a NUMBER root, a missing colon and a value-less position give their syntax errors; trailing tokens after `[]` are ignored |
| Parser.ParserState.constructor | Parser/parser.py:152-156 | the tokens are stored and the index is 0 |
| Parser.ParserState.Match | Parser/parser.py:32-43 | result and new index as `Grammar.Match`; the index is unchanged on an error |
| Parser.ParserState.ParseObject | Parser/parser.py:47-71 | result and new index as `Grammar.ParseObject` at the old index |
| Parser.ParserState.ParseMembers | Parser/parser.py:61-69 | the comma loop and closing brace: result and new index as `Grammar.MembersRest` with the keys and members so far |
| Parser.ParserState.ParsePair | Parser/parser.py:74-98 | result and new index as `Grammar.ParsePair` at the old index |
| Parser.ParserState.ParseValue | Parser/parser.py:104-124 | result and new index as `Grammar.ParseValue` at the old index |
| Parser.ParserState.ParseArray | Parser/parser.py:130-147 | result and new index as `Grammar.ParseArray` at the old index |
| Parser.ParserState.ParseElements | Parser/parser.py:139-145 | the comma loop and closing bracket: result and new index as `Grammar.ElementsRest` with the first element's tag and the elements so far |
| Parser.Parse | Parser/parser.py:152-164 | the returned node is `ToNode` of `Grammar.Parse`, or the same error |
| TokenLines.SplitLines | Parser/parser.py:169 | `splitlines()`: no line holds a boundary; empty text exactly gives no lines |
| TokenLines.SplitLinesCons | Parser/parser.py:169 | a boundary-free line followed by "\n" is split off first |
| TokenLines.SplitJoin | Parser/parser.py:169 | boundary-free lines, each written with "\n", are split back into the same lines |
| TokenLines.StripLeft | Parser/parser.py:170 | `lstrip("<>")` removes exactly the leading run of angle brackets |
| TokenLines.StripRight | Parser/parser.py:170 | `rstrip("<>")` removes exactly the trailing run of angle brackets |
| TokenLines.Split | Parser/parser.py:170 | `split(", ")` never gives an empty list, and gives the whole text as one piece exactly when it holds no ", " |
| TokenLines.SplitJoinPieces | Parser/parser.py:170 | joining the pieces of `split(", ")` with ", " gives back the text |
| TokenLines.SplitPiecesClean | Parser/parser.py:170 | no piece of `split(", ")` holds a separator |
| TokenLines.ParseTokens | Parser/parser.py:167-174 | the loop builds one token per line: the first piece is the kind, the second (if any) the value |
| TokenLines.DecodeLineShape | Parser/parser.py:170-172 | `DecodeLine`: a line has no value exactly when its stripped text holds no ", ", and then the kind is all of it; otherwise the stripped text is the kind, ", ", then text starting with the value; neither part holds a separator |
| TokenLines.TokensOf | Parser/parser.py:167-174 | one token per line; an empty text gives no tokens and only an empty text does |
| TokenLines.DecodeLines | Parser/parser.py:169-173 | the i-th token is the decoding of the i-th line |
| TokenLines.TokensOfCons | Parser/parser.py:169-173 | a boundary-free line followed by "\n" gives its token first, then the tokens of the rest |
| TokenLines.DecodeWithoutSeparator | Parser/parser.py:170-172 | a line with no ", " gets value `None` |
| TokenLines.SplitAtFirst | Parser/parser.py:170 | the text before the first ", " is the first piece |
| TokenLines.StripEncoded | Parser/parser.py:170 | `strip` removes exactly the brackets the writer added, when the kind does not start and the value does not end with one |
| TokenLines.DecodeEncodeLine | Parser/parser.py:170-173 | a written line reads back as its token |
| TokenLines.EncodedLinesUnbroken | Scanner/scanner.py:162 | a written line holds no boundary when its kind and value hold none |
| TokenLines.EncodeLineShape | Scanner/scanner.py:162 | `EncodeLine`: a written line is `<`, the kind, ", ", the value and `>`, with nothing else |
| TokenLines.EncodeOneLinePerToken | Scanner/scanner.py:162 | `Encode`: when no kind and no value holds a line boundary, the written text splits back into exactly the written lines, so reading it gives one token per token written |
| TokenLines.RoundTrip | Parser/parser.py:167-174 | reading back the lines written for tokens free of ", " and boundaries, with no leading bracket on the kind and no trailing bracket on the value, gives the same (kind, value) pairs |
| TokenLines.ValueCutAtSeparator | Parser/parser.py:170-172 | a value `a, b` with no separator in `a` (such as the STRING `a, b`) reads back as `a`: everything from the first ", " on is lost |
| TokenLines.TrailingAngleStripped | Parser/parser.py:170 | a value ending in an extra `<` or `>` (such as the STRING `x>`) reads back without it |
| TokenLines.LineBreakInValueSplits | Parser/parser.py:169-173 | a value `a\nb` reads back as the value `a` and a second token of kind `b` with no value (the STRING `a\nb` becomes the STRING `a` and a token of kind `b`) |
| Pipeline.ScanAll | Scanner/scanner.py:56-92 | repeated calls terminate, ending in `None` or an error |
| Pipeline.ScanAllTokensAreSteps | Scanner/scanner.py:56-92 | every token of a run is what some single call emits |
| Pipeline.PunctuationValueSafe | Scanner/scanner.py:76-81 | a punctuation token's value survives the line format |
| Pipeline.NumberValueSafe | Scanner/scanner.py:107-112 | a NUMBER token's value survives the line format |
| Pipeline.WordValueSafe | Scanner/scanner.py:115-133 | BOOLEAN and NULL values survive the line format |
| Pipeline.StepEncodable | Scanner/scanner.py:56-92 | every emitted token except an unsafe STRING survives the line format |
| Pipeline.ScanWriteRead | Parser/parser.py:167-174 | scanning a text, writing its tokens and reading them back gives the scanned (kind, value) pairs, when its STRING values are safe |

## Left out

- `main` in both files (file and directory handling, reading and writing files, console output) is not modelled. `Pipeline.ScanAll` models only the token loop of the scanner's `main`; `TokenLines.Encode` models only the line format it writes (Scanner/scanner.py:162).
- `Token.__str__` in both files and `is_accepting` (Scanner/scanner.py:49-53) are left out. They are a debug format and a helper the token-producing path never calls.
- Python exceptions become result values (`ScanError`, `Grammar.Err`). The model keeps the abort-on-first-error order but not the unwinding.
- Error messages: each parser error maps to the message the source raises (`Grammar.Message`); the scanner's error keeps only its position and text, not the formatted message.
- Crashes on a missing token (`current_token` is `None`) are modelled as an explicit `EndOfTokens` syntax error.
- Crashes on a token with no value are modelled as `NoKeyValue`/`NoValue`. Such a token comes from a line without ", ".
- `isdigit`, `isspace` and `lower` are modelled on ASCII:
  - The reserved-word checks decide exactly as in Python. The only non-ASCII characters that Python lower-cases to ASCII letters are U+0130 (to "i" and a combining dot) and U+212A (to "k"), and neither letter occurs in "true", "false" or "null".
  - Non-ASCII whitespace is not modelled. A key such as "\u00a0" or "\u3000" fails with error 2 in the source but is accepted by the model. The scanner skips such characters in the source, but reports them as unexpected in the model.
  - Non-ASCII digits (such as "²") start or continue a NUMBER in the source, but are unexpected characters in the model.
- The transition table is a module constant rather than an instance field. The source never changes it.
- `ParseTreeNode` and `add_child` are modelled as immutable values built bottom-up. The source mutates fresh nodes that nobody else refers to, so no aliasing is lost.
- The duplicate-key test on the first pair of an object (Parser/parser.py:55-56) is not modelled. No key has been seen at that point, so it can never fire.
- The kind tag that `parse_value` returns beside each node is computed by `Trees.Tag` from the tagged tree, not returned as a second result.
- Parser.ParserState.ParseObject: on an error the final index is not stated, because the parse is abandoned at that point.
- Parser.ParserState.ParsePair: on an error the final index is not stated, for the same reason.
- Parser.ParserState.ParseValue: on an error the final index is not stated, for the same reason.
- Parser.ParserState.ParseArray: on an error the final index is not stated, for the same reason.
- Parser.ParserState.ParseMembers: on an error the final index is not stated, for the same reason.
- Parser.ParserState.ParseElements: on an error the final index is not stated, for the same reason.
