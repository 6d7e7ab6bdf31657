# e2immu Java front ends, modelled in Dafny

This project models the two front ends of the e2immu Java analyser that turn Java into its internal
representation of types, members and expressions.

- **The bytecode reader** (`e2immu-java-bytecode`) covers the following:
  - decoding JVM type signatures and method descriptors (`ParameterizedTypeFactory`,
    `ParseParameterTypes`);
  - formal type-parameter sections and their retry loop for forward references (`ParseGenerics`,
    `ParseGenerics2`);
  - the scope of type parameters (`TypeParameterContext`);
  - the ASM class and method visitors that build types, fields, methods and parameters from
    class-file callbacks (`MyClassVisitor`, `MyMethodVisitor`);
  - annotation values (`ExpressionFactory`, `JetBrainsAnnotationTranslator`);
  - the test-side class-path lookup (`ResourcesImpl`) and type map (`TypeMapImpl`).
- **The source parser's helpers** (`e2immu-java-parser`) cover the following:
  - escape sequences (`EscapeSequence`);
  - text blocks (`TextBlockParser`);
  - JavaDoc tags (`JavaDocParser`, and the reference resolution and source positions in
    `ParseHelperImpl`);
  - the shared pieces of `CommonParse`;
  - the lookup contexts for types, variables and imports (`TypeContextImpl`,
    `VariableContextImpl`, `ImportMapImpl`);
  - anonymous-class numbering (`AnonymousTypeCountersImpl`);
  - the type-variable substitution maps (`TypeParameterMap`, `MethodTypeParameterMap`).

There is one Dafny module per source file. `JavaLang` supplies the `java.lang` behaviour the code
relies on, with Java's semantics:
- `indexOf`, `lastIndexOf` and `split` with its dropped trailing empty strings;
- `trim`;
- `Integer.parseInt` and `toString`;
- 32-bit `int` wrap-around.

`JavaTypes` holds the shared `ParameterizedType` value. `Expressions` holds the expressions built
from annotation values, and `ParserTypes` holds the source-side view of a type.
`SignatureEncoding` is an encoder for the signature syntax of section 4.7.9.1 of the Java Virtual
Machine Specification. The signature decoder round-trips against it.

How each kind of source code is modelled:
- **Pure code** is modelled as functions.
- **Loops** are methods proved equal to a specification function.
- **Objects whose fields change** are classes. Their methods state the whole new state.
- **Java exceptions and `null` results** are explicit outcomes (`Try`, `Option`, or a parse
  outcome with `Threw` and `Loops`), never preconditions.
- **Operations from libraries the core calls** are function parameters, or fixed tables passed
  in. Examples are `applyTranslation`, `mostSpecific`, `ensureBoxed`, the type map's
  `getOrCreate`, a parameter-name factory and `String.hashCode`.

Where the source and its evident intent disagree, the model has both versions (see
"## Findings"). Everything beyond a finding uses the corrected version.

## Model

| member | source | states |
|---|---|---|
| EscapeSequence.EscapeChar | e2immu-java-parser/src/main/java/org/e2immu/parser/java/util/EscapeSequence.java:4-19 | Exactly the nine escape letters stand for a character; every other letter has none (the source throws). |
| EscapeSequence.EscapeLetterInverts | e2immu-java-parser/src/main/java/org/e2immu/parser/java/util/EscapeSequence.java:4-19 | The escape letters and the characters they stand for are each other's inverse. |
| EscapeSequence.TranslateEscapeInTextBlock | e2immu-java-parser/src/main/java/org/e2immu/parser/java/util/EscapeSequence.java:22-42 | The while loop over the characters gives exactly the translation the recursive definition describes, failing exactly when it fails. |
| EscapeSequence.TranslateNeverLonger | e2immu-java-parser/src/main/java/org/e2immu/parser/java/util/EscapeSequence.java:22-42 | The translation is never longer than its input. |
| EscapeSequence.NoBackslashUnchanged | e2immu-java-parser/src/main/java/org/e2immu/parser/java/util/EscapeSequence.java:22-42 | A string without backslashes translates to itself. |
| EscapeSequence.TranslateEscaped | e2immu-java-parser/src/main/java/org/e2immu/parser/java/util/EscapeSequence.java:22-42 | Escaped text followed by anything translates to the text, in front of the translation of the rest. |
| EscapeSequence.TranslateEscapeStep | e2immu-java-parser/src/main/java/org/e2immu/parser/java/util/EscapeSequence.java:28-32 | A backslash and an escape letter at the front become the escaped character. |
| EscapeSequence.TranslatePlainStep | e2immu-java-parser/src/main/java/org/e2immu/parser/java/util/EscapeSequence.java:36-38 | A character other than a backslash at the front is copied. |
| EscapeSequence.TranslateRoundTrip | e2immu-java-parser/src/main/java/org/e2immu/parser/java/util/EscapeSequence.java:22-42 | Every string is the translation of its escaped form. |
| EscapeSequence.BackslashNewlineKept | e2immu-java-parser/src/main/java/org/e2immu/parser/java/util/EscapeSequence.java:30-35 | A backslash before a line feed survives, and so does the line feed. |
| EscapeSequence.BackslashNewlineFront | e2immu-java-parser/src/main/java/org/e2immu/parser/java/util/EscapeSequence.java:30-35 | The same at the front of the string. |
| EscapeSequence.TrailingBackslashKept | e2immu-java-parser/src/main/java/org/e2immu/parser/java/util/EscapeSequence.java:28-38 | A lone backslash at the very end is copied. |
| EscapeSequence.UnknownEscapeThrows | e2immu-java-parser/src/main/java/org/e2immu/parser/java/util/EscapeSequence.java:15-17 | A backslash before a letter that is no escape makes the whole translation fail with UnsupportedOperationException. |
| TextBlockParser.FindStartNone | e2immu-java-parser/src/main/java/org/e2immu/parser/java/util/TextBlockParser.java:15-19 | The search for the opening delimiter fails exactly when the pattern matches at no position. |
| TextBlockParser.StripQuotesOfLiteral | e2immu-java-parser/src/main/java/org/e2immu/parser/java/util/TextBlockParser.java:17-22 | The delimiters of a literal are cut off and the line feed after the opening one is kept. |
| TextBlockParser.ReplaceBlankLines | e2immu-java-parser/src/main/java/org/e2immu/parser/java/util/TextBlockParser.java:24-34 | The find/appendReplacement loop gives exactly the string with every blank-only line emptied. |
| TextBlockParser.BlankLinesGone | e2immu-java-parser/src/main/java/org/e2immu/parser/java/util/TextBlockParser.java:24-34 | Afterwards no line holds only blanks. |
| TextBlockParser.BlankLinesKept | e2immu-java-parser/src/main/java/org/e2immu/parser/java/util/TextBlockParser.java:24-34 | A string without such a line is left alone. |
| TextBlockParser.BlankLinesIdempotent | e2immu-java-parser/src/main/java/org/e2immu/parser/java/util/TextBlockParser.java:24-34 | Replacing twice is replacing once. |
| TextBlockParser.BlankLinesKeepNonBlanks | e2immu-java-parser/src/main/java/org/e2immu/parser/java/util/TextBlockParser.java:24-34 | Only blanks are removed: every other character survives, in order. |
| TextBlockParser.BlankLinesOfLines | e2immu-java-parser/src/main/java/org/e2immu/parser/java/util/TextBlockParser.java:24-34 | Lines of which only the last may be blank-only are left alone. |
| TextBlockParser.RemoveIndentation | e2immu-java-parser/src/main/java/org/e2immu/parser/java/util/TextBlockParser.java:36-52 | The find/appendReplacement loop gives exactly the unindented string and the recorded line breaks of the recursive definition. |
| TextBlockParser.UnindentPlain | e2immu-java-parser/src/main/java/org/e2immu/parser/java/util/TextBlockParser.java:36-52 | Text without a line feed or a backslash is copied as it is. |
| TextBlockParser.UnindentNewline | e2immu-java-parser/src/main/java/org/e2immu/parser/java/util/TextBlockParser.java:42-43 | A line feed followed by the indentation keeps the line feed and drops the indentation. |
| TextBlockParser.UnindentLines | e2immu-java-parser/src/main/java/org/e2immu/parser/java/util/TextBlockParser.java:36-52 | Lines indented by the indentation come back without it, and no line break is recorded. |
| TextBlockParser.LineContinuation | e2immu-java-parser/src/main/java/org/e2immu/parser/java/util/TextBlockParser.java:44-48 | A line ending in a backslash is joined to the next one, and the join is recorded at the builder's length less one. |
| TextBlockParser.ComputeIndent | e2immu-java-parser/src/main/java/org/e2immu/parser/java/util/TextBlockParser.java:68-77 | The indentation loop computes exactly the indentation and the emptiness flag of the recursive definition. |
| TextBlockParser.IndentOfLines | e2immu-java-parser/src/main/java/org/e2immu/parser/java/util/TextBlockParser.java:54-77 | The scan over the characters meets the lines one by one. |
| TextBlockParser.IndentIsLeast | e2immu-java-parser/src/main/java/org/e2immu/parser/java/util/TextBlockParser.java:68-78 | The indentation is the least number of leading blanks over the lines that count (the last line, or one holding more than blanks), is reached by one of them unless it stays at its start value, and the flag says whether the last line holds only blanks. |
| TextBlockParser.ParseTextBlock | e2immu-java-parser/src/main/java/org/e2immu/parser/java/util/TextBlockParser.java:56-84 | The steps in order give exactly the text block (content and formatting) of the specification, or its failure. |
| TextBlockParser.TextBlockOfStripped | e2immu-java-parser/src/main/java/org/e2immu/parser/java/util/TextBlockParser.java:63-83 | Without a trailing line feed, the content is the escape translation of the unindented string after its first character; line breaks and trailing closing quotes are recorded. |
| TextBlockParser.UsualIndent | e2immu-java-parser/src/main/java/org/e2immu/parser/java/util/TextBlockParser.java:68-78 | A text block written the usual way has its least indentation as indentation, and its last line holds only blanks. |
| TextBlockParser.UsualUnindent | e2immu-java-parser/src/main/java/org/e2immu/parser/java/util/TextBlockParser.java:36-52 | Removing that indentation gives the lines back, with no line break recorded. |
| TextBlockParser.UsualTextBlock | e2immu-java-parser/src/main/java/org/e2immu/parser/java/util/TextBlockParser.java:56-84 | A text block written the usual way has the lines without their indentation as content, each ending in a line feed, and needs no formatting. |
| JavaDocParser.BlockTagAfterOpening | e2immu-java-parser/src/main/java/org/e2immu/parser/java/util/JavaDocParser.java:17-38 | A block tag right after the comment opener is recognised, its name running to the last letter. |
| JavaDocParser.BlockTagAfterAsterisk | e2immu-java-parser/src/main/java/org/e2immu/parser/java/util/JavaDocParser.java:17-38 | So is a block tag after blanks, an asterisk and blanks. |
| JavaDocParser.BlockTagShape | e2immu-java-parser/src/main/java/org/e2immu/parser/java/util/JavaDocParser.java:17-38 | And nothing else is: a match has one of those two prefixes before the `@` and a name of letters running to the last letter. |
| JavaDocParser.BlockArgumentToSpace | e2immu-java-parser/src/main/java/org/e2immu/parser/java/util/JavaDocParser.java:45-52 | A block tag's argument holds no space and is followed by a space or by the end of the line. |
| JavaDocParser.KnownBlockTagWithArgument | e2immu-java-parser/src/main/java/org/e2immu/parser/java/util/JavaDocParser.java:40-65 | A known tag that takes an argument becomes a tag whose content is that argument, with the tag's and the reference's columns; the line continues one past the argument. |
| JavaDocParser.KnownBlockTagAlone | e2immu-java-parser/src/main/java/org/e2immu/parser/java/util/JavaDocParser.java:45-65 | A known tag without an argument has empty content and no reference, and the character after its name is skipped. |
| JavaDocParser.UnknownBlockTagKept | e2immu-java-parser/src/main/java/org/e2immu/parser/java/util/JavaDocParser.java:66-69 | Corrected: an unknown block tag is written back unchanged and makes no tag. |
| JavaDocParser.AsWrittenRepeatsPrefix | e2immu-java-parser/src/main/java/org/e2immu/parser/java/util/JavaDocParser.java:39-68 | As written, the text before the `@` of an unknown tag is written twice, so the line is not kept whenever that text is not empty. |
| JavaDocParser.NextInlineIsFirst | e2immu-java-parser/src/main/java/org/e2immu/parser/java/util/JavaDocParser.java:18-74 | The inline-tag search finds the first position from the cursor where the pattern matches, and nothing when it matches nowhere. |
| JavaDocParser.InlineAtLink | e2immu-java-parser/src/main/java/org/e2immu/parser/java/util/JavaDocParser.java:18 | The inline pattern matches a link `{@name value}` exactly, wherever it stands. |
| JavaDocParser.InternalExtractTags | e2immu-java-parser/src/main/java/org/e2immu/parser/java/util/JavaDocParser.java:29-90 | The loop over the lines, with the inline loop inside, gives exactly the rewritten comment and the tags of the specification (corrected for unknown block tags). |
| JavaDocParser.MatchBlockTag | e2immu-java-parser/src/main/java/org/e2immu/parser/java/util/JavaDocParser.java:34-72 | The block part of one line: what it writes, the tag it makes and the rest of the line, as specified. |
| JavaDocParser.ReplaceInlineTags | e2immu-java-parser/src/main/java/org/e2immu/parser/java/util/JavaDocParser.java:73-85 | The find/appendReplacement loop gives exactly the placeholders-for-tags text and the inline tags, in order. |
| JavaDocParser.NoAtNoInline | e2immu-java-parser/src/main/java/org/e2immu/parser/java/util/JavaDocParser.java:73-85 | Without an `@` there is no inline tag, and the rest of the line is copied. |
| JavaDocParser.LinkAt | e2immu-java-parser/src/main/java/org/e2immu/parser/java/util/JavaDocParser.java:73-85 | A line with one link becomes the text before it, the placeholder of the next tag number and the text after it; the one new tag holds the value, its identifier when known, and its columns. |
| JavaDocParser.LinePlain | e2immu-java-parser/src/main/java/org/e2immu/parser/java/util/JavaDocParser.java:33-88 | A line without `@` has no tag and is copied with a line feed. |
| JavaDocParser.ExtractPlain | e2immu-java-parser/src/main/java/org/e2immu/parser/java/util/JavaDocParser.java:33-88 | Lines without `@` are each copied, followed by a line feed. |
| JavaDocParser.PlainCommentKept | e2immu-java-parser/src/main/java/org/e2immu/parser/java/util/JavaDocParser.java:29-90 | A comment without `@` not ending in a line feed is kept as it is, with a line feed added, and has no tags. |
| JavaDocParser.InlineTagsOnLine | e2immu-java-parser/src/main/java/org/e2immu/parser/java/util/JavaDocParser.java:73-85 | The tags an inline loop adds come after the earlier ones, lie on its line, and are inline tags. |
| JavaDocParser.LineTags | e2immu-java-parser/src/main/java/org/e2immu/parser/java/util/JavaDocParser.java:33-88 | The tags a line adds lie on that line, and only the first can be a block tag. |
| JavaDocParser.ExtractOrdered | e2immu-java-parser/src/main/java/org/e2immu/parser/java/util/JavaDocParser.java:33-88 | From any line on, tags stay in the order of their lines and each block tag leads its line. |
| JavaDocParser.TagsInLineOrder | e2immu-java-parser/src/main/java/org/e2immu/parser/java/util/JavaDocParser.java:29-90 | Every tag of a comment lies on one of its lines, the tags follow the line order, and a block tag is the first of its line. |
| ParameterizedTypeFactory.PrimitiveOfDescriptor | e2immu-java-bytecode/src/main/java/org/e2immu/bytecode/java/asm/ParameterizedTypeFactory.java:203-216 | Each descriptor letter decodes to its own primitive and differs from the other leading characters. |
| ParameterizedTypeFactory.From | e2immu-java-bytecode/src/main/java/org/e2immu/bytecode/java/asm/ParameterizedTypeFactory.java:57-121 | The method gives exactly the outcome of the recursive decoder (corrected variant): a result, null, an exception, or a loop that does not end. |
| ParameterizedTypeFactory.NormalType | e2immu-java-bytecode/src/main/java/org/e2immu/bytecode/java/asm/ParameterizedTypeFactory.java:130-201 | The `while (haveDot)` loop over the segments, then the lookup or stub, gives exactly the specified outcome. |
| ParameterizedTypeFactory.ParseSegment | e2immu-java-bytecode/src/main/java/org/e2immu/bytecode/java/asm/ParameterizedTypeFactory.java:146-174 | One loop iteration ends as specified: the outcome, or the new cursor, path and arguments. |
| ParameterizedTypeFactory.ParsePlainSegment | e2immu-java-bytecode/src/main/java/org/e2immu/bytecode/java/asm/ParameterizedTypeFactory.java:166-173 | A segment without type arguments runs to the next dot or to the `;`. |
| ParameterizedTypeFactory.ParseArgumentsSegment | e2immu-java-bytecode/src/main/java/org/e2immu/bytecode/java/asm/ParameterizedTypeFactory.java:152-165 | A segment with type arguments reads them, then goes on after a dot or ends at the next `;`. |
| ParameterizedTypeFactory.ParseTypeArguments | e2immu-java-bytecode/src/main/java/org/e2immu/bytecode/java/asm/ParameterizedTypeFactory.java:154-162 | The do/while loop gives exactly the specified list of type arguments and the position after `>`. |
| ParameterizedTypeFactory.IterativelyParseTypes | e2immu-java-bytecode/src/main/java/org/e2immu/bytecode/java/asm/ParameterizedTypeFactory.java:226-249 | One step reads one type argument, then stops after `>` or goes on with the next. |
| SignatureEncoding.DecodeEncode | e2immu-java-bytecode/src/main/java/org/e2immu/bytecode/java/asm/ParameterizedTypeFactory.java:57-201 | Round trip: decoding the encoding of a well-formed type, followed by anything, gives the type back with the position just past its encoding. |
| SignatureEncoding.DecodePrimitive | e2immu-java-bytecode/src/main/java/org/e2immu/bytecode/java/asm/ParameterizedTypeFactory.java:112-116 | Primitive case of the round trip (corrected cursor). |
| SignatureEncoding.DecodeTypeVariable | e2immu-java-bytecode/src/main/java/org/e2immu/bytecode/java/asm/ParameterizedTypeFactory.java:99-111 | Type-variable case of the round trip. |
| SignatureEncoding.DecodeClass | e2immu-java-bytecode/src/main/java/org/e2immu/bytecode/java/asm/ParameterizedTypeFactory.java:93-96 | Class-type case of the round trip. |
| SignatureEncoding.DecodeUnloadable | e2immu-java-bytecode/src/main/java/org/e2immu/bytecode/java/asm/ParameterizedTypeFactory.java:177-197 | A class type the type map cannot load decodes to a stub split at its last dot when stubs are wanted, and to null otherwise. |
| SignatureEncoding.DecodeClassName | e2immu-java-bytecode/src/main/java/org/e2immu/bytecode/java/asm/ParameterizedTypeFactory.java:139-200 | An encoded class type is read up to its `;` and looked up by its name. |
| SignatureEncoding.DecodeArguments | e2immu-java-bytecode/src/main/java/org/e2immu/bytecode/java/asm/ParameterizedTypeFactory.java:154-162 | The type-argument loop reads back a run of encoded arguments up to the closing `>`. |
| SignatureEncoding.FqnOfInternalName | e2immu-java-bytecode/src/main/java/org/e2immu/bytecode/java/asm/ParameterizedTypeFactory.java:175 | The class name survives the trip to its internal form and back through the `[/$]` rewrite. |
| SignatureEncoding.EncodeFirst | e2immu-java-bytecode/src/main/java/org/e2immu/bytecode/java/asm/ParameterizedTypeFactory.java:64-116 | Every encoding starts with a wildcard mark, a bracket, a descriptor letter, `L`, `T` or `*`. |
| SignatureFindings.WildcardPrimitiveArrayAsWritten | e2immu-java-bytecode/src/main/java/org/e2immu/bytecode/java/asm/ParameterizedTypeFactory.java:113-114 | As written, `+[I` stops the cursor at `I` and drops the wildcard. |
| SignatureFindings.WildcardPrimitiveArrayArguments | e2immu-java-bytecode/src/main/java/org/e2immu/bytecode/java/asm/ParameterizedTypeFactory.java:113-114 | As written, the arguments of `La<+[I>;` read two arguments, the second the stray `I`. |
| SignatureFindings.WildcardPrimitiveArrayCorrected | e2immu-java-bytecode/src/main/java/org/e2immu/bytecode/java/asm/ParameterizedTypeFactory.java:113-114 | Corrected, the same signature decodes to the one type it encodes. |
| ParseParameterTypes.ParseParameterTypesOfMethod | e2immu-java-bytecode/src/main/java/org/e2immu/bytecode/java/asm/ParseParameterTypes.java:36-53 | The method gives exactly the specified outcome: `[R]` for `()R`, else every type from position 1 on, null as soon as one is. |
| ParseParameterTypes.IterativelyParseMethodTypes | e2immu-java-bytecode/src/main/java/org/e2immu/bytecode/java/asm/ParseParameterTypes.java:55-83 | One step reads a type, skips a `)` after it, refuses a `^`, and ends at the end of the string. |
| ParseParameterTypes.DecodeMethodDescriptor | e2immu-java-bytecode/src/main/java/org/e2immu/bytecode/java/asm/ParseParameterTypes.java:36-83 | A method descriptor decodes to its parameter types followed by its return type; a throws clause after it is refused, except after `()`. |
| ParseParameterTypes.DecodeWithoutParameters | e2immu-java-bytecode/src/main/java/org/e2immu/bytecode/java/asm/ParseParameterTypes.java:37-42 | `()R` gives the return type alone, whatever follows. |
| ParseParameterTypes.DecodeMethodTypes | e2immu-java-bytecode/src/main/java/org/e2immu/bytecode/java/asm/ParseParameterTypes.java:45-51 | The loop reads the encoded parameters and skips their `)`. |
| ParseParameterTypes.DecodeReturnType | e2immu-java-bytecode/src/main/java/org/e2immu/bytecode/java/asm/ParseParameterTypes.java:64-72 | The return type ends the loop: at the end of the string, or refused before a `^`. |
| TypeParameterContext.TypeParameterContext.constructor | e2immu-java-bytecode/src/main/java/org/e2immu/bytecode/java/asm/TypeParameterContext.java:12-14 | A fresh context without parent binds nothing. |
| TypeParameterContext.TypeParameterContext.Child | e2immu-java-bytecode/src/main/java/org/e2immu/bytecode/java/asm/TypeParameterContext.java:16-18 | A child context binds exactly what its parent binds. |
| TypeParameterContext.TypeParameterContext.Add | e2immu-java-bytecode/src/main/java/org/e2immu/bytecode/java/asm/TypeParameterContext.java:20-22 | Adding binds the simple name here and changes nothing in the parent. |
| TypeParameterContext.TypeParameterContext.Get | e2immu-java-bytecode/src/main/java/org/e2immu/bytecode/java/asm/TypeParameterContext.java:24-28 | The nearest binding of the name in this context or an enclosing one; none when no context binds it. |
| TypeParameterContext.TypeParameterContext.NewContext | e2immu-java-bytecode/src/main/java/org/e2immu/bytecode/java/asm/TypeParameterContext.java:30-32 | A new child whose bindings equal this context's. |
| ParameterizedTypeFactory.Primitive | e2immu-java-bytecode/src/main/java/org/e2immu/bytecode/java/asm/ParameterizedTypeFactory.java:203-216 | A primitive exactly for the codes B C D F I J S V Z, and its descriptor is that code. |
| ParseGenerics.EndPosIsClosingBracket | e2immu-java-bytecode/src/main/java/org/e2immu/bytecode/java/asm/ParseGenerics.java:71-95 | The decoder returns the position of the `>` that closes the section, and -1 exactly when a bound cannot be loaded. |
| ParseGenerics.GoEndsAtBracket | e2immu-java-bytecode/src/main/java/org/e2immu/bytecode/java/asm/ParseGenerics.java:73-89 | A successful run of the retry loop ends on the `>` of its last pass, with every type found. |
| ParseGenerics.FirstPassNumbers | e2immu-java-bytecode/src/main/java/org/e2immu/bytecode/java/asm/ParseGenerics.java:97-112 | The first pass numbers the type parameters it creates 0, 1, ... in declaration order, gives them the owner and binds each in the context. |
| ParseGenerics.LaterPassesKeep | e2immu-java-bytecode/src/main/java/org/e2immu/bytecode/java/asm/ParseGenerics.java:110-112 | Later passes reuse the type parameters of the first and change neither them nor the context. |
| ParseGenerics.TypeParametersNumbered | e2immu-java-bytecode/src/main/java/org/e2immu/bytecode/java/asm/ParseGenerics.java:71-112 | However a run ends, its type parameters are numbered in declaration order and owned by the owner. |
| ParseGenerics.ObjectBoundsDropped | e2immu-java-bytecode/src/main/java/org/e2immu/bytecode/java/asm/ParseGenerics.java:123-126 | No pass ever records a bound that is `java.lang.Object`. |
| ParseGenerics.LaterPassesAgree | e2immu-java-bytecode/src/main/java/org/e2immu/bytecode/java/asm/ParseGenerics.java:97-144 | A later pass depends only on the context, the type parameters and its cursor. |
| ParseGenerics.RetriesRepeat | e2immu-java-bytecode/src/main/java/org/e2immu/bytecode/java/asm/ParseGenerics.java:84-88 | Every pass after the second repeats it, so a type still not found on the second pass ends in "In infinite loop". |
| ParseGenerics.SecondPassDecides | e2immu-java-bytecode/src/main/java/org/e2immu/bytecode/java/asm/ParseGenerics.java:71-89 | The whole run is told by its first two passes: the first if it finds every type, else the second if it does, else the exception. |
| ParseGenerics.ParseGenerics.constructor | e2immu-java-bytecode/src/main/java/org/e2immu/bytecode/java/asm/ParseGenerics.java:51-69 | The decoder starts with no type parameters over the given context, owner and signature. |
| ParseGenerics.ParseGenerics.GoReturnEndPos | e2immu-java-bytecode/src/main/java/org/e2immu/bytecode/java/asm/ParseGenerics.java:71-95 | Returns exactly the specified result; on success the type parameters, committed, go to the consumer in order. |
| ParseGenerics.ParseGenerics.RetryLoop | e2immu-java-bytecode/src/main/java/org/e2immu/bytecode/java/asm/ParseGenerics.java:72-89 | The `while (true)` retry loop leaves exactly the outcome and state of the specification. |
| ParseGenerics.ParseGenerics.Commit | e2immu-java-bytecode/src/main/java/org/e2immu/bytecode/java/asm/ParseGenerics.java:90-93 | Each type parameter goes to the consumer, in order. |
| ParseGenerics.ParseGenerics.ParsePass | e2immu-java-bytecode/src/main/java/org/e2immu/bytecode/java/asm/ParseGenerics.java:74-83 | The do/while loop of one pass leaves the specified outcome and state. |
| ParseGenerics.ParseGenerics.IterativelyParseGenerics | e2immu-java-bytecode/src/main/java/org/e2immu/bytecode/java/asm/ParseGenerics.java:97-144 | One entry: the name up to the colon, the type parameter (new on the first pass), its bounds, then `>` or the next entry, as specified. |
| ParseGenerics.ParseGenerics.ParseBounds | e2immu-java-bytecode/src/main/java/org/e2immu/bytecode/java/asm/ParseGenerics.java:113-132 | The `while (atEnd == COLON)` loop gives exactly the specified bounds, end and flag. |
| ParseGenerics2.AddOrSetAllNumbered | e2immu-java-bytecode/src/main/java/org/e2immu/bytecode/java/asm/ParseGenerics2.java:75-78 | Parameters numbered from `k` on each end up at their own index, replacing what the type had there; the rest is kept. |
| ParseGenerics2.AddedToFreshType | e2immu-java-bytecode/src/main/java/org/e2immu/bytecode/java/asm/ParseGenerics2.java:75-78 | A type without type parameters gets exactly the decoded ones, in order. |
| ParseGenerics2.ParseGenerics2.constructor | e2immu-java-bytecode/src/main/java/org/e2immu/bytecode/java/asm/ParseGenerics2.java:43-54 | The decoder starts with no type parameters over the given context, type and signature, and with the type's current parameters and their bounds. |
| ParseGenerics2.ParseGenerics2.GoReturnEndPos | e2immu-java-bytecode/src/main/java/org/e2immu/bytecode/java/asm/ParseGenerics2.java:56-119 | Returns exactly what the shared specification (without stubs) gives. On success the type's list is updated by addOrSetTypeParameter for each parameter, and each parameter index gets the bounds setTypeBounds gave it; otherwise the type is left as it was. No `java.lang.Object` bound reaches the type. |
| ParseGenerics2.ParseGenerics2.AddAll | e2immu-java-bytecode/src/main/java/org/e2immu/bytecode/java/asm/ParseGenerics2.java:75-78 | The final loop applies addOrSetTypeParameter to each parameter in order. |
| ParseGenerics2.FreshTypeGetsNumberedParameters | e2immu-java-bytecode/src/main/java/org/e2immu/bytecode/java/asm/ParseGenerics2.java:56-97 | A successful run on a type without type parameters leaves them numbered 0, 1, ... in declaration order and owned by the type. |
| MyClassVisitor.NaturePrecedence | e2immu-java-bytecode/src/main/java/org/e2immu/bytecode/java/asm/MyClassVisitor.java:64-70 | The decoded nature is the first, in the order annotation, enum, interface, record, whose flag is set, and class when none is. |
| MyClassVisitor.NatureRoundTrip | e2immu-java-bytecode/src/main/java/org/e2immu/bytecode/java/asm/MyClassVisitor.java:64-70 | Decoding the flags javac writes for a nature gives that nature back, whatever the other bits. |
| MyClassVisitor.InterfaceExactlyWhenFlagged | e2immu-java-bytecode/src/main/java/org/e2immu/bytecode/java/asm/MyClassVisitor.java:64-70 | On flags the JVM allows, the decoded nature is an interface exactly when ACC_INTERFACE is set. |
| MyClassVisitor.AccessModifiers | e2immu-java-bytecode/src/main/java/org/e2immu/bytecode/java/asm/MyClassVisitor.java:399-405 | checkTypeFlags: each of static, private, protected and public is present exactly when its bit is set, and nothing else. |
| MyClassVisitor.TypeModifierRules | e2immu-java-bytecode/src/main/java/org/e2immu/bytecode/java/asm/MyClassVisitor.java:101-106 | Each type modifier is present exactly when its bit is set; abstract and final moreover only on a class. |
| MyClassVisitor.FieldModifiers | e2immu-java-bytecode/src/main/java/org/e2immu/bytecode/java/asm/MyClassVisitor.java:227-235 | Each field modifier is present exactly when its bit is set. |
| MyClassVisitor.MethodModifiers | e2immu-java-bytecode/src/main/java/org/e2immu/bytecode/java/asm/MyClassVisitor.java:279-286 | Public exactly when its bit is set outside an interface; private, protected and final exactly when their bits are set. |
| MyClassVisitor.MethodTypePrecedence | e2immu-java-bytecode/src/main/java/org/e2immu/bytecode/java/asm/MyClassVisitor.java:272-277 | `<init>` is the constructor; any other method gets the first kind, in the order static, abstract, default (in an interface), plain, whose condition holds. |
| MyClassVisitor.MethodSignatureName | e2immu-java-bytecode/src/main/java/org/e2immu/bytecode/java/asm/MyClassVisitor.java:72-77 | A constructor is looked up under the signature of a method named after its type; the text before the first `(` is the name looked up. |
| MyClassVisitor.InitializerAsWrittenDropsConstants | e2immu-java-bytecode/src/main/java/org/e2immu/bytecode/java/asm/MyClassVisitor.java:238-243 | As written, even `static final int X = 3` gets no initializer, and only the empty expression is ever set. |
| MyClassVisitor.InitializerIsTheConstant | e2immu-java-bytecode/src/main/java/org/e2immu/bytecode/java/asm/MyClassVisitor.java:238-243 | Corrected, a field's constant value becomes an initializer standing for exactly that value. |
| MyClassVisitor.TranslateStored | e2immu-java-bytecode/src/main/java/org/e2immu/bytecode/java/asm/MyClassVisitor.java:182-187 | The store's annotations of an item are mapped onto a builder that has none yet. |
| MyClassVisitor.StoreEntry | e2immu-java-bytecode/src/main/java/org/e2immu/bytecode/java/asm/MyClassVisitor.java:312-321 | The store's entry for a method exists exactly when the store has one under its signature. |
| MyClassVisitor.BuildFieldModifiers | e2immu-java-bytecode/src/main/java/org/e2immu/bytecode/java/asm/MyClassVisitor.java:227-235 | The bit-by-bit construction gives exactly the field modifiers. |
| MyClassVisitor.BuildMethodModifiers | e2immu-java-bytecode/src/main/java/org/e2immu/bytecode/java/asm/MyClassVisitor.java:279-286 | The bit-by-bit construction gives exactly the method modifiers. |
| MyClassVisitor.MyClassVisitor.constructor | e2immu-java-bytecode/src/main/java/org/e2immu/bytecode/java/asm/MyClassVisitor.java:44-62 | A new visitor has no current type. |
| MyClassVisitor.MyClassVisitor.Visit | e2immu-java-bytecode/src/main/java/org/e2immu/bytecode/java/asm/MyClassVisitor.java:80-107 | The current type, its parent `java.lang.Object` unless it is that type, its nature and interface flag, its modifiers and its store annotations are set as specified. |
| MyClassVisitor.MyClassVisitor.CheckTypeFlags | e2immu-java-bytecode/src/main/java/org/e2immu/bytecode/java/asm/MyClassVisitor.java:399-405 | Adds exactly the access modifiers of the flags. |
| MyClassVisitor.MyClassVisitor.AddClassModifiers | e2immu-java-bytecode/src/main/java/org/e2immu/bytecode/java/asm/MyClassVisitor.java:102-106 | Adds abstract and final, by their bits, on a class only. |
| MyClassVisitor.MyClassVisitor.VisitField | e2immu-java-bytecode/src/main/java/org/e2immu/bytecode/java/asm/MyClassVisitor.java:211-256 | No field outside a type, for a synthetic field or an undecodable type; otherwise the field with its name, owner, type, modifiers, enum flag, initializer (corrected) and store annotations, failing exactly when the constant names a type that cannot be loaded. |
| MyClassVisitor.MyClassVisitor.VisitMethod | e2immu-java-bytecode/src/main/java/org/e2immu/bytecode/java/asm/MyClassVisitor.java:259-325 | No method outside a type, for `lambda$`, `<clinit>`, synthetic methods or undecodable types; otherwise the header with its kind, modifiers, varargs flag, parameter and return types, store entry and annotations; an empty type list fails. Undecodable types here means only the null of parseParameterTypesOfMethod (lines 304-306). When parseMethodGenerics fails (lines 296-301), the source throws through errorStateForType, and the model has no input for that run. |
| MyClassVisitor.MyClassVisitor.BuildMethodHeader | e2immu-java-bytecode/src/main/java/org/e2immu/bytecode/java/asm/MyClassVisitor.java:271-324 | The header built once the guards pass, failing exactly on an empty type list. |
| MyClassVisitor.MyClassVisitor.VisitEnd | e2immu-java-bytecode/src/main/java/org/e2immu/bytecode/java/asm/MyClassVisitor.java:426-449 | With a current type: the builder gets the runtime's functional-interface method for an interface and null for any other type, it is committed, and the current type is cleared. Without one nothing happens. The rest of the visitor's state is unchanged. |
| MyClassVisitor.VisitedType | e2immu-java-bytecode/src/main/java/org/e2immu/bytecode/java/asm/MyClassVisitor.java:80-449 | visit then visitEnd: on legal flags the builder is committed, with a functional-interface method exactly when ACC_INTERFACE is set. |
| MyMethodVisitor.LocalVariableSeen | e2immu-java-bytecode/src/main/java/org/e2immu/bytecode/java/asm/MyMethodVisitor.java:162-173 | Keeps the number of builders. |
| MyMethodVisitor.SlotNamesParameter | e2immu-java-bytecode/src/main/java/org/e2immu/bytecode/java/asm/MyMethodVisitor.java:162-173 | A local-variable slot names the parameter at that slot minus one for an instance method, leaves its position and annotations, and leaves every other builder alone. |
| MyMethodVisitor.StoreItem | e2immu-java-bytecode/src/main/java/org/e2immu/bytecode/java/asm/MyMethodVisitor.java:201-210 | Mapping one store item keeps the number of builders. |
| MyMethodVisitor.StoreMapped | e2immu-java-bytecode/src/main/java/org/e2immu/bytecode/java/asm/MyMethodVisitor.java:200-212 | Mapping the store's items keeps the number of builders. |
| MyMethodVisitor.NegativeItemSplit | e2immu-java-bytecode/src/main/java/org/e2immu/bytecode/java/asm/MyMethodVisitor.java:201-206 | A list of items holds a negative index with annotations exactly when its head is one or its tail holds one. |
| MyMethodVisitor.StoreItemLands | e2immu-java-bytecode/src/main/java/org/e2immu/bytecode/java/asm/MyMethodVisitor.java:201-210 | One item fails exactly when its index is negative and it has annotations; otherwise every builder gains just that item's translated annotations for its position. |
| MyMethodVisitor.StoreFailsExactly | e2immu-java-bytecode/src/main/java/org/e2immu/bytecode/java/asm/MyMethodVisitor.java:200-212 | Mapping the items throws, an index-out-of-bounds, exactly when one of them has a negative index and annotations. |
| MyMethodVisitor.StoreAnnotationsLand | e2immu-java-bytecode/src/main/java/org/e2immu/bytecode/java/asm/MyMethodVisitor.java:200-212 | When mapping succeeds, each builder gains exactly the translated annotations of the items for its position, in item order; items beyond the last position are ignored. |
| MyMethodVisitor.UnnamedBefore | e2immu-java-bytecode/src/main/java/org/e2immu/bytecode/java/asm/MyMethodVisitor.java:177-181 | The name factory is asked at most once per parameter before a position. |
| MyMethodVisitor.Committed | e2immu-java-bytecode/src/main/java/org/e2immu/bytecode/java/asm/MyMethodVisitor.java:178-191 | Parameter `i` has index `i`, the `i`-th type, its builder's annotations and name when it has one, and is varargs exactly when it is the last of a varargs method. |
| MyMethodVisitor.CommittedAsWritten | e2immu-java-bytecode/src/main/java/org/e2immu/bytecode/java/asm/MyMethodVisitor.java:184-188 | As written: one parameter per builder, the varargs flag taken from the builder. |
| MyMethodVisitor.AsWrittenLosesVarargsAndStoreAnnotations | e2immu-java-bytecode/src/main/java/org/e2immu/bytecode/java/asm/MyMethodVisitor.java:184-212 | As written, the one parameter of a varargs method without a local-variable table is not varargs and gets none of the store's annotations; corrected, it gets both. |
| MyMethodVisitor.StoreAnnotationsReachParameters | e2immu-java-bytecode/src/main/java/org/e2immu/bytecode/java/asm/MyMethodVisitor.java:178-212 | Corrected order: every parameter carries its builder's annotations followed by the store's for its position, and only the last of a varargs method is varargs. |
| MyMethodVisitor.MyMethodVisitor.constructor | e2immu-java-bytecode/src/main/java/org/e2immu/bytecode/java/asm/MyMethodVisitor.java:123-145 | One fresh builder per parameter position, the return type not counted; no parameters yet. |
| MyMethodVisitor.MyMethodVisitor.VisitParameterAnnotation | e2immu-java-bytecode/src/main/java/org/e2immu/bytecode/java/asm/MyMethodVisitor.java:153-157 | The annotation is appended to the builder of the parameter; a position out of range throws and changes nothing. |
| MyMethodVisitor.MyMethodVisitor.VisitLocalVariable | e2immu-java-bytecode/src/main/java/org/e2immu/bytecode/java/asm/MyMethodVisitor.java:162-173 | The builders change exactly as LocalVariableSeen says. |
| MyMethodVisitor.MyMethodVisitor.VisitEnd | e2immu-java-bytecode/src/main/java/org/e2immu/bytecode/java/asm/MyMethodVisitor.java:175-219 | If mapping the store's items throws, nothing is added; otherwise the builders are mapped, the committed parameters are appended and the method is registered as a constructor or a method. |
| MyMethodVisitor.MyMethodVisitor.MapStoreItems | e2immu-java-bytecode/src/main/java/org/e2immu/bytecode/java/asm/MyMethodVisitor.java:200-212 | The builders become the mapped ones, or it throws exactly when the mapping fails. |
| MyMethodVisitor.MyMethodVisitor.AddParameters | e2immu-java-bytecode/src/main/java/org/e2immu/bytecode/java/asm/MyMethodVisitor.java:178-191 | Appends exactly the committed parameters and leaves the builders alone. |
| ExpressionFactory.PrimitiveNamed | e2immu-java-bytecode/src/main/java/org/e2immu/bytecode/java/ExpressionFactory.java:74-83 | A class name stands for a primitive exactly when it is that primitive's Java name. |
| ExpressionFactory.ParseTypeExpression | e2immu-java-bytecode/src/main/java/org/e2immu/bytecode/java/ExpressionFactory.java:72-93 | Always a type expression; throws "Cannot load type" exactly when the name is no primitive and the type map cannot load it. |
| ExpressionFactory.FromAll | e2immu-java-bytecode/src/main/java/org/e2immu/bytecode/java/ExpressionFactory.java:52-54 | The elements of an Object array translate one to one, in order. |
| ExpressionFactory.ParseCharArray | e2immu-java-bytecode/src/main/java/org/e2immu/bytecode/java/ExpressionFactory.java:64-70 | The char array becomes an array initializer of char whose elements are the chars' constants, in order. |
| ExpressionFactory.ValuesOf | e2immu-java-bytecode/src/main/java/org/e2immu/bytecode/java/ExpressionFactory.java:52-54 | Reading the values back from expressions keeps their number. |
| ExpressionFactory.ThrowsExactlyOnMissingType | e2immu-java-bytecode/src/main/java/org/e2immu/bytecode/java/ExpressionFactory.java:32-93 | The factory throws exactly when some class type in the value, however deeply nested in Object arrays, cannot be loaded. |
| ExpressionFactory.AllThrowExactlyOnMissingType | e2immu-java-bytecode/src/main/java/org/e2immu/bytecode/java/ExpressionFactory.java:52-54 | An Object array's translation throws exactly when one of its elements holds a type that cannot be loaded. |
| ExpressionFactory.TranslationIsFaithful | e2immu-java-bytecode/src/main/java/org/e2immu/bytecode/java/ExpressionFactory.java:32-57 | The expression made from a value stands for that very value (constants keep their value, arrays their elements in order); it is the empty expression whenever some part of the value has no case. |
| ExpressionFactory.AsmTypeFaithful | e2immu-java-bytecode/src/main/java/org/e2immu/bytecode/java/ExpressionFactory.java:55 | A loadable type becomes the type expression of that type. |
| ExpressionFactory.IntArrayFaithful | e2immu-java-bytecode/src/main/java/org/e2immu/bytecode/java/ExpressionFactory.java:36-37 | An int array becomes an int array initializer of its elements, in order. |
| ExpressionFactory.LongArrayFaithful | e2immu-java-bytecode/src/main/java/org/e2immu/bytecode/java/ExpressionFactory.java:40-41 | A long array becomes a long array initializer of its elements, in order. |
| ExpressionFactory.DoubleArrayFaithful | e2immu-java-bytecode/src/main/java/org/e2immu/bytecode/java/ExpressionFactory.java:44-46 | A double array becomes a double array initializer of its elements, in order. |
| ExpressionFactory.CharArrayFaithful | e2immu-java-bytecode/src/main/java/org/e2immu/bytecode/java/ExpressionFactory.java:49 | A char array becomes a char array initializer of its chars, in order. |
| ExpressionFactory.AllTranslationsFaithful | e2immu-java-bytecode/src/main/java/org/e2immu/bytecode/java/ExpressionFactory.java:52-54 | The translated elements stand for the elements exactly when every element has a case. |
| JetBrainsAnnotationTranslator.SplitPiecesNoLonger | e2immu-java-bytecode/src/main/java/org/e2immu/bytecode/java/JetBrainsAnnotationTranslator.java:70 | No piece of a split is longer than the string split. |
| JetBrainsAnnotationTranslator.ConvertAll | e2immu-java-bytecode/src/main/java/org/e2immu/bytecode/java/JetBrainsAnnotationTranslator.java:70-71 | The parts convert one to one, in order. |
| JetBrainsAnnotationTranslator.ConvertIntRoundTrip | e2immu-java-bytecode/src/main/java/org/e2immu/bytecode/java/JetBrainsAnnotationTranslator.java:73-74 | Every 32-bit int as Integer.toString writes it converts back to that int constant. |
| JetBrainsAnnotationTranslator.JoinEndsWithLast | e2immu-java-bytecode/src/main/java/org/e2immu/bytecode/java/JetBrainsAnnotationTranslator.java:69-70 | A join is at least as long as its last part. |
| JetBrainsAnnotationTranslator.ConvertBraces | e2immu-java-bytecode/src/main/java/org/e2immu/bytecode/java/JetBrainsAnnotationTranslator.java:69-71 | A string longer than two characters between braces converts to the Object array of its comma-split contents. |
| JetBrainsAnnotationTranslator.SplitOfJoin | e2immu-java-bytecode/src/main/java/org/e2immu/bytecode/java/JetBrainsAnnotationTranslator.java:70 | Splitting a comma-join of comma-free parts, the last not empty, gives the parts back (String.split drops trailing empty strings). |
| JetBrainsAnnotationTranslator.ConvertArray | e2immu-java-bytecode/src/main/java/org/e2immu/bytecode/java/JetBrainsAnnotationTranslator.java:66-79 | `{a,b,...}` converts to the Object array of the converted parts, in order. |
| JetBrainsAnnotationTranslator.AnnotationOf | e2immu-java-bytecode/src/main/java/org/e2immu/bytecode/java/JetBrainsAnnotationTranslator.java:55-64 | The annotation keeps the store annotation's name; its pairs are contract=true followed by each store pair with its value converted, in order. |
| JetBrainsAnnotationTranslator.ToAnnotationExpression | e2immu-java-bytecode/src/main/java/org/e2immu/bytecode/java/JetBrainsAnnotationTranslator.java:55-64 | The loop builds exactly AnnotationOf. |
| JetBrainsAnnotationTranslator.Translated | e2immu-java-bytecode/src/main/java/org/e2immu/bytecode/java/JetBrainsAnnotationTranslator.java:45-53 | One store annotation adds at most one annotation. |
| JetBrainsAnnotationTranslator.MapAnnotation | e2immu-java-bytecode/src/main/java/org/e2immu/bytecode/java/JetBrainsAnnotationTranslator.java:45-53 | Appends exactly the translation of the store annotation: e2immu's @NotNull for JetBrains' @NotNull on a parameter builder only, the converted annotation for an e2immu one, nothing otherwise. |
| JetBrainsAnnotationTranslator.MapAnnotations | e2immu-java-bytecode/src/main/java/org/e2immu/bytecode/java/JetBrainsAnnotationTranslator.java:39-43 | Appends the translations of the store annotations, in order. |
| JetBrainsAnnotationTranslator.TranslatedInOrder | e2immu-java-bytecode/src/main/java/org/e2immu/bytecode/java/JetBrainsAnnotationTranslator.java:39-43 | Translating two lists in turn is translating their concatenation. |
| JetBrainsAnnotationTranslator.AllTranslatedSnoc | e2immu-java-bytecode/src/main/java/org/e2immu/bytecode/java/JetBrainsAnnotationTranslator.java:40-42 | Translating one more annotation appends its translation. |
| JetBrainsAnnotationTranslator.TranslationsAreE2immu | e2immu-java-bytecode/src/main/java/org/e2immu/bytecode/java/JetBrainsAnnotationTranslator.java:45-53 | Every annotation added is an e2immu one, and there is exactly one per recognised store annotation. |
| ResourcesImpl.Candidate | e2immu-java-bytecode/src/test/java/org/e2immu/bytecode/java/ResourcesImpl.java:56-62 | Candidate `i` keeps the first `i` segments as directories and adds one file name: the remaining segments joined by '$', then the extension. |
| ResourcesImpl.FirstHitNone | e2immu-java-bytecode/src/test/java/org/e2immu/bytecode/java/ResourcesImpl.java:55-69 | The search finds nothing exactly when no candidate from `i` on holds a URI. |
| ResourcesImpl.FirstHitIsFirst | e2immu-java-bytecode/src/test/java/org/e2immu/bytecode/java/ResourcesImpl.java:55-67 | What the search returns is the file of the first candidate that holds a URI: its parts joined by '/' and its first URI. |
| ResourcesImpl.FirstPresentSkips | e2immu-java-bytecode/src/test/java/org/e2immu/bytecode/java/ResourcesImpl.java:55-67 | A candidate without URIs before the first present one does not change which is first. |
| ResourcesImpl.NoPackageNotFound | e2immu-java-bytecode/src/test/java/org/e2immu/bytecode/java/ResourcesImpl.java:54-55 | A name without a dot has no package part and is never found. |
| ResourcesImpl.Resources.constructor | e2immu-java-bytecode/src/test/java/org/e2immu/bytecode/java/ResourcesImpl.java:25 | The resources over a given trie. |
| ResourcesImpl.Resources.FqnToPath | e2immu-java-bytecode/src/test/java/org/e2immu/bytecode/java/ResourcesImpl.java:52-70 | The loop returns exactly the shortest-package-prefix hit of the specification, or none. |
| ResourcesImpl.Resources.JoinFrom | e2immu-java-bytecode/src/test/java/org/e2immu/bytecode/java/ResourcesImpl.java:58-61 | The remaining segments, joined by '$' from left to right. |
| TypeMapImpl.LookupType | e2immu-java-bytecode/src/test/java/org/e2immu/bytecode/java/TypeMapImpl.java:69-73 | A type is returned exactly when one is stored under the name. |
| TypeMapImpl.LastNamedIsLast | e2immu-java-bytecode/src/test/java/org/e2immu/bytecode/java/TypeMapImpl.java:47-53 | The last type of a list named `n` is found exactly when one exists, and no later type carries the name. |
| TypeMapImpl.MatchingIsLastNamed | e2immu-java-bytecode/src/test/java/org/e2immu/bytecode/java/TypeMapImpl.java:46-51 | The loop's search ends with the last loaded type named `fqn`, or with nothing when none is. |
| TypeMapImpl.StoredAllHolds | e2immu-java-bytecode/src/test/java/org/e2immu/bytecode/java/TypeMapImpl.java:47-53 | Corrected store: a name some loaded type carries holds the last of them; every other name keeps what it held. |
| TypeMapImpl.StoredAllKeyed | e2immu-java-bytecode/src/test/java/org/e2immu/bytecode/java/TypeMapImpl.java:47-53 | Corrected store keeps every entry under the name of its own type. |
| TypeMapImpl.AsWrittenStoresNestedUnderOuterName | e2immu-java-bytecode/src/test/java/org/e2immu/bytecode/java/TypeMapImpl.java:52 | As written, loading `a.B` with its nested `a.B.C` leaves `a.B.C` under the name `a.B` and `a.B.C` unknown. |
| TypeMapImpl.GetReturnsWhatItKeeps | e2immu-java-bytecode/src/test/java/org/e2immu/bytecode/java/TypeMapImpl.java:38-56 | A successful get returns a type of the queried name that a later lookup finds; the assertion fails exactly when the entry is not done and no loaded type carries the name; entries stay keyed by name. |
| TypeMapImpl.StripDotClass | e2immu-java-bytecode/src/test/java/org/e2immu/bytecode/java/TypeMapImpl.java:87 | A trailing ".class" is removed, anything else is kept. |
| TypeMapImpl.FqnOfPathIsDotted | e2immu-java-bytecode/src/test/java/org/e2immu/bytecode/java/TypeMapImpl.java:90-102 | Replacing '/' and '$' by '.' keeps the length, changes nothing else and leaves neither character. |
| TypeMapImpl.IntToStringIsDotted | e2immu-java-bytecode/src/test/java/org/e2immu/bytecode/java/TypeMapImpl.java:99 | A converted int holds neither '/' nor '$'. |
| TypeMapImpl.PathToFqnIsDotted | e2immu-java-bytecode/src/test/java/org/e2immu/bytecode/java/TypeMapImpl.java:85-103 | Whatever the path, the name holds no '/' and no '$'. |
| TypeMapImpl.ScalaObjectName | e2immu-java-bytecode/src/test/java/org/e2immu/bytecode/java/TypeMapImpl.java:88-91 | A path ending in '$' gives a name ending in ".object" in its place. |
| TypeMapImpl.ScalaClassName | e2immu-java-bytecode/src/test/java/org/e2immu/bytecode/java/TypeMapImpl.java:92-95 | A "$class" path keeps its length and ends in ".class". |
| TypeMapImpl.AnonymousFunctionName | e2immu-java-bytecode/src/test/java/org/e2immu/bytecode/java/TypeMapImpl.java:96-101 | A "$$anonfun" path gives the converted prefix, a dot, and the absolute hash, which parses back to that value. |
| TypeMapImpl.OrdinaryName | e2immu-java-bytecode/src/test/java/org/e2immu/bytecode/java/TypeMapImpl.java:102 | Any other path has each '/' and '$' turned into '.', nothing else changed. |
| TypeMapImpl.DollarJoin | e2immu-java-bytecode/src/test/java/org/e2immu/bytecode/java/ResourcesImpl.java:59-61 | Non-empty parts without '$' joined by '$' never hold "$$" and neither start nor end with '$'. |
| TypeMapImpl.CandidatePathLayout | e2immu-java-bytecode/src/test/java/org/e2immu/bytecode/java/ResourcesImpl.java:62-65 | The class-file path of a candidate, ".class" stripped, is its package directories, a '/', and the '$'-joined type names. |
| TypeMapImpl.CandidateNoDoubleDollar | e2immu-java-bytecode/src/test/java/org/e2immu/bytecode/java/ResourcesImpl.java:59-61 | A candidate's stripped path never holds "$$" and does not end with '$'. |
| TypeMapImpl.AnonymousFunctionStartsWithDollars | e2immu-java-bytecode/src/test/java/org/e2immu/bytecode/java/TypeMapImpl.java:97 | An occurrence of "$$anonfun" starts with two '$'. |
| TypeMapImpl.NoAnonymousFunction | e2immu-java-bytecode/src/test/java/org/e2immu/bytecode/java/TypeMapImpl.java:97 | Without "$$" there is no "$$anonfun". |
| TypeMapImpl.FqnOfPathAround | e2immu-java-bytecode/src/test/java/org/e2immu/bytecode/java/TypeMapImpl.java:102 | Converting `a/b` is converting `a`, a dot, and converting `b`. |
| TypeMapImpl.CandidateDots | e2immu-java-bytecode/src/test/java/org/e2immu/bytecode/java/TypeMapImpl.java:102 | A candidate's stripped path converts to the segments joined by dots. |
| TypeMapImpl.CandidateReadsBack | e2immu-java-bytecode/src/test/java/org/e2immu/bytecode/java/TypeMapImpl.java:85-103 | pathToFqn of any candidate path of a plain name gives that name back. |
| TypeMapImpl.FoundPathReadsBack | e2immu-java-bytecode/src/test/java/org/e2immu/bytecode/java/TypeMapImpl.java:85-103 | The path fqnToPath finds for a plain name reads back through pathToFqn as that very name. |
| TypeMapImpl.TypeMap.constructor | e2immu-java-bytecode/src/test/java/org/e2immu/bytecode/java/TypeMapImpl.java:20-22 | An empty map and queue over the class path. |
| TypeMapImpl.TypeMap.Add | e2immu-java-bytecode/src/test/java/org/e2immu/bytecode/java/TypeMapImpl.java:28-31 | The type is stored under its name with its state and is found there. |
| TypeMapImpl.TypeMap.AddToByteCodeQueue | e2immu-java-bytecode/src/test/java/org/e2immu/bytecode/java/TypeMapImpl.java:33-36 | The name is appended to the queue, duplicates kept. |
| TypeMapImpl.TypeMap.AddToTrie | e2immu-java-bytecode/src/test/java/org/e2immu/bytecode/java/TypeMapImpl.java:63-67 | The type is stored under its name with the null state and returned. |
| TypeMapImpl.TypeMap.Get | e2immu-java-bytecode/src/test/java/org/e2immu/bytecode/java/TypeMapImpl.java:69-73 | On a valid map, the type returned carries the name asked for. |
| TypeMapImpl.TypeMap.TypeInspectionSituation | e2immu-java-bytecode/src/test/java/org/e2immu/bytecode/java/TypeMapImpl.java:75-78 | The entry is returned exactly when get finds a type, and holds that type. |
| TypeMapImpl.TypeMap.IsPackagePrefix | e2immu-java-bytecode/src/test/java/org/e2immu/bytecode/java/TypeMapImpl.java:58-61 | No package prefix is known. |
| TypeMapImpl.TypeMap.GetOrLoad | e2immu-java-bytecode/src/test/java/org/e2immu/bytecode/java/TypeMapImpl.java:38-56 | The result and the new entries are those of GetSpec on the class file fqnToPath finds; a success carries the queried name and is stored under it. |
| CommonParse.Pad | e2immu-java-parser/src/main/java/org/e2immu/parser/java/CommonParse.java:87-114 | Throws the "awfully long method" exception exactly when `n` exceeds 10000. |
| CommonParse.DigitsLength | e2immu-java-parser/src/main/java/org/e2immu/parser/java/CommonParse.java:89-93 | The decimal of an index below 10, 100, 1000 or 10000 has 1, 2, 3 or 4 digits. |
| CommonParse.PadPlain | e2immu-java-parser/src/main/java/org/e2immu/parser/java/CommonParse.java:96-97 | With at most ten indices the plain decimal is returned. |
| CommonParse.Zeros | e2immu-java-parser/src/main/java/org/e2immu/parser/java/CommonParse.java:98-112 | The padding: `k` zeros. |
| CommonParse.PadShape | e2immu-java-parser/src/main/java/org/e2immu/parser/java/CommonParse.java:95-112 | pad never truncates: the result is zeros before the decimal, as wide as the width for `n` or wider when the index has more digits. |
| CommonParse.ZerosValue | e2immu-java-parser/src/main/java/org/e2immu/parser/java/CommonParse.java:98-112 | Leading zeros leave a digit string's value unchanged. |
| CommonParse.ZerosOnly | e2immu-java-parser/src/main/java/org/e2immu/parser/java/CommonParse.java:98-112 | A string of zeros has the value 0. |
| CommonParse.ZerosSnoc | e2immu-java-parser/src/main/java/org/e2immu/parser/java/CommonParse.java:98-112 | One more zero can be put at the end as well as at the front. |
| CommonParse.PadParsesBack | e2immu-java-parser/src/main/java/org/e2immu/parser/java/CommonParse.java:95-112 | A padded non-negative index is all digits and reads back as the index. |
| CommonParse.PadKeepsOrder | e2immu-java-parser/src/main/java/org/e2immu/parser/java/CommonParse.java:89-112 | For indices below `n`, padded names compare in string order as the indices compare, and are equal only for equal indices. |
| CommonParse.TypeNatureKeyword | e2immu-java-parser/src/main/java/org/e2immu/parser/java/CommonParse.java:191-200 | A token gives a nature exactly when it is that nature's keyword, `interface` giving an annotation exactly in an annotation type declaration; any other token gives none. |
| CommonParse.TypeModifierKeyword | e2immu-java-parser/src/main/java/org/e2immu/parser/java/CommonParse.java:202-214 | A token gives a modifier exactly when it is that modifier's keyword; no token gives both a modifier and a nature. |
| CommonParse.FirstIdentifier | e2immu-java-parser/src/main/java/org/e2immu/parser/java/CommonParse.java:168 | An identifier is found exactly when some child is one, and the name is the source of the first Identifier child. |
| CommonParse.NewTypeInfo | e2immu-java-parser/src/main/java/org/e2immu/parser/java/CommonParse.java:175-179 | A new type carries its simple name, no nature and no modifiers yet. |
| CommonParse.ScanKeyWord | e2immu-java-parser/src/main/java/org/e2immu/parser/java/CommonParse.java:142-159 | A keyword leaves the identifier and body seen so far alone. |
| CommonParse.ScanModifiers | e2immu-java-parser/src/main/java/org/e2immu/parser/java/CommonParse.java:140-151 | The keywords of a Modifiers node leave the identifier and body seen so far alone. |
| CommonParse.ScanChildren | e2immu-java-parser/src/main/java/org/e2immu/parser/java/CommonParse.java:139-166 | The body found is the first class, record or enum body among the children. |
| CommonParse.ScanOn | e2immu-java-parser/src/main/java/org/e2immu/parser/java/CommonParse.java:139-166 | The scan resumes after a step, keeping a body the step or later children give. |
| CommonParse.WellPlacedUnion | e2immu-java-parser/src/main/java/org/e2immu/parser/java/CommonParse.java:184-187 | Adding a well-placed map of nested types whose enclosing types are known keeps the map well placed. |
| CommonParse.HandleDeclPlaced | e2immu-java-parser/src/main/java/org/e2immu/parser/java/CommonParse.java:131-188 | handleTypeDeclaration keeps every type under its fully qualified name, a nested one under its enclosing type's name plus its own, removes nothing, and stores the declared type. |
| CommonParse.FindTypesPlaced | e2immu-java-parser/src/main/java/org/e2immu/parser/java/CommonParse.java:117-126 | recursivelyFindTypes gives a well-placed map. |
| CommonParse.FindTypesFromPlaced | e2immu-java-parser/src/main/java/org/e2immu/parser/java/CommonParse.java:119-124 | The loop keeps the map well placed and removes nothing. |
| CommonParse.FindTypesFindsEach | e2immu-java-parser/src/main/java/org/e2immu/parser/java/CommonParse.java:117-126 | Every type declaration among the children is in the result, under the name its first identifier gives it. |
| CommonParse.HandleDeclNamed | e2immu-java-parser/src/main/java/org/e2immu/parser/java/CommonParse.java:167-168 | A declaration handled without throwing has an identifier. |
| CommonParse.Declaration | e2immu-java-parser/src/main/java/org/e2immu/parser/java/CommonParse.java:131-183 | A declaration that does not throw has a first identifier, its type is named as that identifier places it (the given type's name at the top level, outer.name when nested), and the body it searches is one of its children. |
| CommonParse.HandleDeclFinds | e2immu-java-parser/src/main/java/org/e2immu/parser/java/CommonParse.java:131-188 | handleTypeDeclaration adds exactly the names `td` declares: its own and those in its body at any depth. |
| CommonParse.FindTypesFromFinds | e2immu-java-parser/src/main/java/org/e2immu/parser/java/CommonParse.java:119-124 | From a position on, the loop adds exactly the names declared among the remaining children, at any depth. |
| CommonParse.FindTypesFinds | e2immu-java-parser/src/main/java/org/e2immu/parser/java/CommonParse.java:117-126 | A name is in the result exactly when it is declared in the body, nested at any depth included. |
| CommonParse.FindTypesFindsAll | e2immu-java-parser/src/main/java/org/e2immu/parser/java/CommonParse.java:117-126 | recursivelyFindTypes holds every declared type, nested ones at any depth included, and nothing else. |
| CommonParse.NestedInterfaceFound | e2immu-java-parser/src/main/java/org/e2immu/parser/java/CommonParse.java:178-186 | An interface D nested in class a.b.C is found as `a.b.C.D`, enclosed by `a.b.C`, with nature interface. |
| CommonParse.OuterScanned | e2immu-java-parser/src/main/java/org/e2immu/parser/java/CommonParse.java:139-166 | The scan over `public class C { ... }` collects the name, the body, the nature class and the modifier public. |
| CommonParse.NestedTypeFound | e2immu-java-parser/src/main/java/org/e2immu/parser/java/CommonParse.java:117-187 | In the whole compilation unit both C and its nested D are found, each under its fully qualified name. |
| CommonParse.RecursivelyFindTypes | e2immu-java-parser/src/main/java/org/e2immu/parser/java/CommonParse.java:117-126 | The loop computes exactly FindTypes. |
| CommonParse.HandleTypeDeclaration | e2immu-java-parser/src/main/java/org/e2immu/parser/java/CommonParse.java:131-188 | The method computes exactly HandleDecl. |
| CommonParse.ScanTypeDeclaration | e2immu-java-parser/src/main/java/org/e2immu/parser/java/CommonParse.java:139-166 | The two nested loops compute exactly ScanChildren. |
| ParseHelper.SplitAtHashParts | e2immu-java-parser/src/main/java/org/e2immu/parser/java/ParseHelperImpl.java:271-273 | Without `#` the whole trimmed content is the type part and there is no member part; with one, the parts are the trimmed text on either side of the first. |
| ParseHelper.SkipSpaces | e2immu-java-parser/src/main/java/org/e2immu/parser/java/ParseHelperImpl.java:318 | Drops a suffix-preserving run of white space: the rest is a suffix that starts with no white space. |
| ParseHelper.SkipAll | e2immu-java-parser/src/main/java/org/e2immu/parser/java/ParseHelperImpl.java:318 | Each piece loses its leading white space; the number of pieces stays. |
| ParseHelper.Spaced | e2immu-java-parser/src/main/java/org/e2immu/parser/java/ParseHelperImpl.java:318 | Each name behind one space. |
| ParseHelper.JoinSpaced | e2immu-java-parser/src/main/java/org/e2immu/parser/java/ParseHelperImpl.java:318 | Joining names with ", " is joining the first and the others behind a space with ",". |
| ParseHelper.SkipSpaced | e2immu-java-parser/src/main/java/org/e2immu/parser/java/ParseHelperImpl.java:318 | The white space the separator consumes is exactly the space put in front of each plain name. |
| ParseHelper.SplitParametersOfJoin | e2immu-java-parser/src/main/java/org/e2immu/parser/java/ParseHelperImpl.java:314-320 | A parameter list of plain type names written with ", " splits back into exactly those names. |
| ParseHelper.SkippedPieces | e2immu-java-parser/src/main/java/org/e2immu/parser/java/ParseHelperImpl.java:318 | The first piece and the others stripped of their space give the names back. |
| ParseHelper.PiecesOfSpacedJoin | e2immu-java-parser/src/main/java/org/e2immu/parser/java/ParseHelperImpl.java:318 | The comma pieces of such a list are the first name and each other behind its space. |
| ParseHelper.NoTrailingEmpty | e2immu-java-parser/src/main/java/org/e2immu/parser/java/ParseHelperImpl.java:318 | A list whose last string is not empty loses nothing to the trailing-empty rule. |
| ParseHelper.JoinEndsNonBlank | e2immu-java-parser/src/main/java/org/e2immu/parser/java/ParseHelperImpl.java:315 | A join of plain names is not blank. |
| ParseHelper.JoinStartsWith | e2immu-java-parser/src/main/java/org/e2immu/parser/java/ParseHelperImpl.java:318 | A join starts with the first character of its first part. |
| ParseHelper.TrimKeeps | e2immu-java-parser/src/main/java/org/e2immu/parser/java/ParseHelperImpl.java:315 | trim leaves something of a string whose first character is above U+0020. |
| ParseHelper.ParameterTypesMatch | e2immu-java-parser/src/main/java/org/e2immu/parser/java/ParseHelperImpl.java:400-407 | True exactly when there are as many written types as parameters and each matches its parameter: a type variable by its printed form (or the varargs form for an array), any other type by its fully qualified, simple or from-primary-type name. |
| ParseHelper.FieldNamed | e2immu-java-parser/src/main/java/org/e2immu/parser/java/ParseHelperImpl.java:297 | The field found has the name; none is found only when no field has it. |
| ParseHelper.MethodNamedIgnoringCase | e2immu-java-parser/src/main/java/org/e2immu/parser/java/ParseHelperImpl.java:299-300 | The method found has the name ignoring case; none only when no method has it. |
| ParseHelper.FirstCandidateIsFirst | e2immu-java-parser/src/main/java/org/e2immu/parser/java/ParseHelperImpl.java:324-331 | The method found is the first that passes the filters; none only when no method passes. |
| ParseHelper.ArityMismatch | e2immu-java-parser/src/main/java/org/e2immu/parser/java/ParseHelperImpl.java:401 | A written parameter list of another length matches no method or constructor. |
| ParseHelper.HashFirstIsCurrentType | e2immu-java-parser/src/main/java/org/e2immu/parser/java/ParseHelperImpl.java:276-278 | A reference starting with `#` resolves its member in the current type. |
| ParseHelper.TypeOnly | e2immu-java-parser/src/main/java/org/e2immu/parser/java/ParseHelperImpl.java:271-341 | Without `#` the reference is the type the content names, or the tag is left unchanged when the type is unknown. |
| ParseHelper.TypeAndMember | e2immu-java-parser/src/main/java/org/e2immu/parser/java/ParseHelperImpl.java:271-290 | `Type#member` with a known type resolves the member in that type. |
| ParseHelper.FieldBeforeMethod | e2immu-java-parser/src/main/java/org/e2immu/parser/java/ParseHelperImpl.java:294-309 | Without parentheses a field of that name wins, then the first method of that name in any case. |
| ParseHelper.MissingCloseUnchanged | e2immu-java-parser/src/main/java/org/e2immu/parser/java/ParseHelperImpl.java:311-313 | A `(` without a `)` after it leaves the tag as it was. |
| ParseHelper.ParenthesizedMember | e2immu-java-parser/src/main/java/org/e2immu/parser/java/ParseHelperImpl.java:310-339 | `name(types)` resolves to the constructor (when the name is the type's) or method of that name whose parameters match the written list, or to null. |
| ParseHelper.ParenthesesAt | e2immu-java-parser/src/main/java/org/e2immu/parser/java/ParseHelperImpl.java:291-312 | indexOf finds the first `(` and the first `)` after it. |
| ParseHelper.MakeSource | e2immu-java-parser/src/main/java/org/e2immu/parser/java/ParseHelperImpl.java:383-388 | The source begins `offset` after the reference and ends on the last character of the string. |
| ParseHelper.MakeSourceOfPrefix | e2immu-java-parser/src/main/java/org/e2immu/parser/java/ParseHelperImpl.java:390-398 | The loop ends the source after the first i+1 parts and the dots between them. |
| ParseHelper.PrefixLength | e2immu-java-parser/src/main/java/org/e2immu/parser/java/ParseHelperImpl.java:390-398 | The first `n` parts joined by dots are as long as their lengths plus the dots between them. |
| ParseHelper.PrefixSourceEndsWithPrefix | e2immu-java-parser/src/main/java/org/e2immu/parser/java/ParseHelperImpl.java:390-398 | The source of prefix `i` ends on the last character of the first i+1 dotted parts. |
| TypeParameterMap.EmptyBindsNothing | e2immu-java-parser/src/main/java/org/e2immu/parserimpl/TypeParameterMap.java:17-21 | EMPTY binds nothing. |
| TypeParameterMap.Next | e2immu-java-parser/src/main/java/org/e2immu/parserimpl/TypeParameterMap.java:48-51 | The chain goes on only from a type that is bound, to a type variable. |
| TypeParameterMap.IterateNoneStays | e2immu-java-parser/src/main/java/org/e2immu/parserimpl/TypeParameterMap.java:44-52 | Once the chain has ended it stays ended. |
| TypeParameterMap.IterateAdd | e2immu-java-parser/src/main/java/org/e2immu/parserimpl/TypeParameterMap.java:44-52 | Walking `a` steps and then `b` steps is walking `a + b` steps. |
| TypeParameterMap.HasCyclesIffOnCycle | e2immu-java-parser/src/main/java/org/e2immu/parserimpl/TypeParameterMap.java:34-54 | A chain from some key repeats exactly when some key is bound, through type variables, back to itself. |
| TypeParameterMap.NoRepeat | e2immu-java-parser/src/main/java/org/e2immu/parserimpl/TypeParameterMap.java:41-54 | A chain that ends after distinct elements never repeats. |
| TypeParameterMap.DistinctSnoc | e2immu-java-parser/src/main/java/org/e2immu/parserimpl/TypeParameterMap.java:45 | Adding an unvisited type keeps the visited types distinct. |
| TypeParameterMap.ChainExtend | e2immu-java-parser/src/main/java/org/e2immu/parserimpl/TypeParameterMap.java:48-50 | The next step extends the chain walked so far. |
| TypeParameterMap.FoundRepeat | e2immu-java-parser/src/main/java/org/e2immu/parserimpl/TypeParameterMap.java:45-46 | Meeting a visited type again means the chain repeats. |
| TypeParameterMap.EndsDistinct | e2immu-java-parser/src/main/java/org/e2immu/parserimpl/TypeParameterMap.java:51-53 | A chain that stops at an unbound type or a non-variable after distinct types does not repeat. |
| TypeParameterMap.ContainsCyclesFrom | e2immu-java-parser/src/main/java/org/e2immu/parserimpl/TypeParameterMap.java:41-54 | True exactly when the chain from `start` comes back to a type it already passed. |
| TypeParameterMap.ContainsCycles | e2immu-java-parser/src/main/java/org/e2immu/parserimpl/TypeParameterMap.java:34-39 | True exactly when the chain from some key repeats. |
| TypeParameterMap.Merge | e2immu-java-parser/src/main/java/org/e2immu/parserimpl/TypeParameterMap.java:23-32 | An empty argument gives this map, an empty map gives the argument; otherwise the union with the argument winning, unless it has more than one entry and a cycle, when this map is returned. |
| TypeParameterMap.MergeEmpty | e2immu-java-parser/src/main/java/org/e2immu/parserimpl/TypeParameterMap.java:24-25 | EMPTY is neutral on both sides of merge. |
| TypeParameterMap.MergeBindings | e2immu-java-parser/src/main/java/org/e2immu/parserimpl/TypeParameterMap.java:26-31 | Unless refused, the merge binds every key of either map, the argument's binding winning. |
| TypeParameterMap.MergeAcyclic | e2immu-java-parser/src/main/java/org/e2immu/parserimpl/TypeParameterMap.java:28-31 | A merged map of more than one entry binds no type back to itself. |
| TypeParameterMap.SelfBindingKept | e2immu-java-parser/src/main/java/org/e2immu/parserimpl/TypeParameterMap.java:28 | A single binding of a variable to itself passes: the size test skips the cycle check. |
| TypeParameterMap.SwapRefused | e2immu-java-parser/src/main/java/org/e2immu/parserimpl/TypeParameterMap.java:28-29 | Two variables bound to each other: the merge is refused and this map comes back. |
| MethodTypeParameterMap.GetConcreteReturnType | e2immu-java-parser/src/main/java/org/e2immu/parserimpl/MethodTypeParameterMap.java:41-46 | Throws exactly when there is no single abstract method; otherwise the method's return type translated through the bindings. |
| MethodTypeParameterMap.ConcreteTypeOfParameter | e2immu-java-parser/src/main/java/org/e2immu/parserimpl/MethodTypeParameterMap.java:48-62 | Throws without a method; with one it succeeds exactly for a non-negative position and a method with parameters, reading parameter i, or the last parameter for every i past the end. |
| MethodTypeParameterMap.VarargsClamped | e2immu-java-parser/src/main/java/org/e2immu/parserimpl/MethodTypeParameterMap.java:51-58 | Every position from the last parameter on has the same concrete type as the last parameter. |
| MethodTypeParameterMap.ParameterizedTypeAt | e2immu-java-parser/src/main/java/org/e2immu/parserimpl/MethodTypeParameterMap.java:176-178 | Without a method the call dereferences null; a position inside the list gives that parameter's formal type. |
| MethodTypeParameterMap.PastTheEnd | e2immu-java-parser/src/main/java/org/e2immu/parserimpl/MethodTypeParameterMap.java:179-181 | Past the end it succeeds exactly for a varargs last parameter, with one array dimension fewer; a non-varargs last parameter throws. |
| MethodTypeParameterMap.Expand | e2immu-java-parser/src/main/java/org/e2immu/parserimpl/MethodTypeParameterMap.java:64-69 | Same method; the keys of both maps; a key on one side keeps its value, a key on both is bound to mostSpecific(existing, added). |
| MethodTypeParameterMap.ExpandBindings | e2immu-java-parser/src/main/java/org/e2immu/parserimpl/MethodTypeParameterMap.java:66-67 | The merge loop over the added keys gives the bindings with every added key merged. |
| MethodTypeParameterMap.MergeOne | e2immu-java-parser/src/main/java/org/e2immu/parserimpl/MethodTypeParameterMap.java:67 | One merge call extends the merged key set by that key. |
| MethodTypeParameterMap.Translate | e2immu-java-parser/src/main/java/org/e2immu/parserimpl/MethodTypeParameterMap.java:170-174 | Same method and keys; every bound value passed through the translation. |
| MethodTypeParameterMap.IsAssignableFrom | e2immu-java-parser/src/main/java/org/e2immu/parserimpl/MethodTypeParameterMap.java:131-146 | Throws exactly when either side has no method; true for the same method; false for a different number of parameters. |
| MethodTypeParameterMap.AssignableSymmetric | e2immu-java-parser/src/main/java/org/e2immu/parserimpl/MethodTypeParameterMap.java:131-146 | The relation gives the same answer in both directions. |
| MethodTypeParameterMap.AssignableSameArity | e2immu-java-parser/src/main/java/org/e2immu/parserimpl/MethodTypeParameterMap.java:144-145 | Two different methods with as many parameters are related exactly when both or neither return void or java.lang.Void. |
| MethodTypeParameterMap.FirstPositionFrom | e2immu-java-parser/src/main/java/org/e2immu/parserimpl/MethodTypeParameterMap.java:115-121 | The first parameter from a position on whose type is the type variable, and none before it; none when no parameter has it. |
| MethodTypeParameterMap.ParameterPosition | e2immu-java-parser/src/main/java/org/e2immu/parserimpl/MethodTypeParameterMap.java:115-121 | The counting loop finds the first parameter position whose type is the type variable. |
| MethodTypeParameterMap.ComputeFor | e2immu-java-parser/src/main/java/org/e2immu/parserimpl/MethodTypeParameterMap.java:114-126 | The type for one type parameter: the lambda type at its first parameter position, else the inferred return type, else the type variable itself; boxed; an index past the lambda types fails. |
| MethodTypeParameterMap.ComputedForFails | e2immu-java-parser/src/main/java/org/e2immu/parserimpl/MethodTypeParameterMap.java:117-118 | The computation fails exactly when the first parameter position of the type parameter lies past the lambda's types. |
| MethodTypeParameterMap.ComputedAllEntries | e2immu-java-parser/src/main/java/org/e2immu/parserimpl/MethodTypeParameterMap.java:113-127 | One entry per type parameter, in order, each as computed for that type parameter; the list fails exactly when one entry fails. |
| MethodTypeParameterMap.TypeParametersComputed | e2immu-java-parser/src/main/java/org/e2immu/parserimpl/MethodTypeParameterMap.java:103-128 | The loop over the owner's type parameters gives the list of computed entries, empty when the owner has none. |
| MethodTypeParameterMap.InferFunctionalType | e2immu-java-parser/src/main/java/org/e2immu/parserimpl/MethodTypeParameterMap.java:78-88 | Throws without a method; otherwise the owner type with the computed type arguments. |
| MethodTypeParameterMap.FunctionInferred | e2immu-java-parser/src/main/java/org/e2immu/parserimpl/MethodTypeParameterMap.java:90-92 | For Function<T, R> with R apply(T t) the result is Function of the boxed lambda parameter type and the boxed inferred return type. |
| MethodTypeParameterMap.TranslateMap | e2immu-java-parser/src/main/java/org/e2immu/parserimpl/MethodTypeParameterMap.java:321-339 | A formal type variable binds its own key only; a formal type that is not a type variable binds nothing. |
| MethodTypeParameterMap.TranslateMapRoundTrip | e2immu-java-parser/src/main/java/org/e2immu/parserimpl/MethodTypeParameterMap.java:330-335 | Substituting the binding back into the formal type gives the concrete type when that has at least the formal's array dimensions. |
| MethodTypeParameterMap.TranslateMapTooFewArrays | e2immu-java-parser/src/main/java/org/e2immu/parserimpl/MethodTypeParameterMap.java:331-335 | A concrete type without array dimensions is bound as it is. |
| MethodTypeParameterMap.CombineMaps | e2immu-java-parser/src/main/java/org/e2immu/parserimpl/MethodTypeParameterMap.java:399-406 | The result has exactly the keys of the second map. |
| MethodTypeParameterMap.CombineKeepsNonVariables | e2immu-java-parser/src/main/java/org/e2immu/parserimpl/MethodTypeParameterMap.java:402 | A value that is not a type variable is unchanged. |
| MethodTypeParameterMap.CombineVariables | e2immu-java-parser/src/main/java/org/e2immu/parserimpl/MethodTypeParameterMap.java:402 | A type-variable value is replaced by its binding in the first map when it has one, and kept otherwise. |
| MethodTypeParameterMap.CombineWithEmpty | e2immu-java-parser/src/main/java/org/e2immu/parserimpl/MethodTypeParameterMap.java:399-406 | Through no bindings nothing changes. |
| MethodTypeParameterMap.CombineIdempotent | e2immu-java-parser/src/main/java/org/e2immu/parserimpl/MethodTypeParameterMap.java:399-406 | Reading through closed bindings twice is the same as once. |
| MethodTypeParameterMap.CombineExample | e2immu-java-parser/src/main/java/org/e2immu/parserimpl/MethodTypeParameterMap.java:394-398 | StringMap<V> extends HashMap<String, V>: K of Map is read through K of HashMap as String. |
| ImportMap.ImportMap.constructor | e2immu-java-parser/src/main/java/org/e2immu/parserimpl/ImportMapImpl.java:10-14 | All five tables start empty. |
| ImportMap.ImportMap.AddStaticAsterisk | e2immu-java-parser/src/main/java/org/e2immu/parserimpl/ImportMapImpl.java:16-20 | The type is added once to the static wildcard imports, in insertion order, and also to the wildcard set whose subtypes are visible. |
| ImportMap.ImportMap.PutStaticMemberToTypeInfo | e2immu-java-parser/src/main/java/org/e2immu/parserimpl/ImportMapImpl.java:22-25 | The member is bound to the type, overwriting, and the lookup then answers that type. |
| ImportMap.ImportMap.GetStaticMemberToTypeInfo | e2immu-java-parser/src/main/java/org/e2immu/parserimpl/ImportMapImpl.java:37-40 | Answers the bound type exactly when the member is bound. |
| ImportMap.ImportMap.PutTypeMap | e2immu-java-parser/src/main/java/org/e2immu/parserimpl/ImportMapImpl.java:43-51 | A high-priority registration overwrites, otherwise only an absent name is registered; a direct import also binds the simple name. |
| ImportMap.LastDot | e2immu-java-parser/src/main/java/org/e2immu/parserimpl/ImportMapImpl.java:57-61 | For outer.simple with no dot in simple, the last dot is the one after outer, and the two substrings are outer and simple. |
| ImportMap.ImportedDirectly | e2immu-java-parser/src/main/java/org/e2immu/parserimpl/ImportMapImpl.java:55 | A registered fully qualified name resolves to its type. |
| ImportMap.ImportedThroughOuter | e2immu-java-parser/src/main/java/org/e2immu/parserimpl/ImportMapImpl.java:56-64 | An unregistered outer.simple resolves to the first subtype named simple of whatever outer resolves to, and to nothing when outer does not resolve. |
| ImportMap.NotImportedWithoutDot | e2immu-java-parser/src/main/java/org/e2immu/parserimpl/ImportMapImpl.java:57-58 | An unregistered name with no dot after its first character resolves to nothing. |
| ImportMap.ImportedSound | e2immu-java-parser/src/main/java/org/e2immu/parserimpl/ImportMapImpl.java:54-67 | A resolved type is the registered one, or a type whose simple name is the last segment of the queried name. |
| ImportMap.NestedImportExample | e2immu-java-parser/src/main/java/org/e2immu/parserimpl/ImportMapImpl.java:59-63 | With a.b.C registered and D nested in it, a.b.C.D resolves to D and a.b.C.E to nothing. |
| ImportMap.ImportMap.AddToSubtypeAsterisk | e2immu-java-parser/src/main/java/org/e2immu/parserimpl/ImportMapImpl.java:69-72 | The type joins the wildcard set and is then reported as a wildcard import. |
| ImportMap.ImportMap.ImportAsterisk | e2immu-java-parser/src/main/java/org/e2immu/parserimpl/ImportMapImpl.java:79-82 | A copy of the wildcard set. |
| ImportMap.ImportMap.GetSimpleName | e2immu-java-parser/src/main/java/org/e2immu/parserimpl/ImportMapImpl.java:84-87 | Answers the bound type exactly when the simple name is bound. |
| ParserTypes.FirstSubtypeNamed | e2immu-java-parser/src/main/java/org/e2immu/parserimpl/ImportMapImpl.java:62-63 | A found subtype is one of the subtypes and has the name; nothing is found exactly when no subtype has it. |
| ParserTypes.FirstSubtypeNamedIsFirst | e2immu-java-parser/src/main/java/org/e2immu/parserimpl/ImportMapImpl.java:62-63 | When some subtype has the name, the one found is at the first position with that name. |
| VariableContext.VariableContext.constructor | e2immu-java-parser/src/main/java/org/e2immu/parserimpl/VariableContextImpl.java:16-18 | A context with no parent and no variables. |
| VariableContext.VariableContext.Nested | e2immu-java-parser/src/main/java/org/e2immu/parserimpl/VariableContextImpl.java:20-27 | An empty context whose parent is the given one; the parent's answers are unchanged. |
| VariableContext.VariableContext.Get | e2immu-java-parser/src/main/java/org/e2immu/parserimpl/VariableContextImpl.java:33-48 | Fails with "Unknown variable in context" exactly when complain is set and the name is bound nowhere in the chain; answers nothing exactly when complain is off and the name is bound nowhere; a found variable has that simple name. |
| VariableContext.VariableContext.ParentChainExcludes | e2immu-java-parser/src/main/java/org/e2immu/parserimpl/VariableContextImpl.java:14 | A context is never part of its parent's chain. |
| VariableContext.VariableContext.AddField | e2immu-java-parser/src/main/java/org/e2immu/parserimpl/VariableContextImpl.java:55-61 | A field is added only when no field of that simple name is bound, so the first one wins; nothing else changes. |
| VariableContext.VariableContext.AddParameter | e2immu-java-parser/src/main/java/org/e2immu/parserimpl/VariableContextImpl.java:63-66 | A parameter is bound under its simple name, overwriting; nothing else changes. |
| VariableContext.VariableContext.AddLocal | e2immu-java-parser/src/main/java/org/e2immu/parserimpl/VariableContextImpl.java:68-71 | A local is bound under its simple name, overwriting; nothing else changes. |
| VariableContext.VariableContext.AddAll | e2immu-java-parser/src/main/java/org/e2immu/parserimpl/VariableContextImpl.java:73-77 | The locals are put in list order; nothing else changes. |
| VariableContext.PutLocalsSnoc | e2immu-java-parser/src/main/java/org/e2immu/parserimpl/VariableContextImpl.java:74-76 | Putting one more local after a list is putting the list, then that local. |
| VariableContext.LastNamed | e2immu-java-parser/src/main/java/org/e2immu/parserimpl/VariableContextImpl.java:74-76 | The last local of a name in a list is in the list and has that name; none exactly when no local has it. |
| VariableContext.PutLocalsLastWins | e2immu-java-parser/src/main/java/org/e2immu/parserimpl/VariableContextImpl.java:74-76 | After addAll a name is bound to its last local in the list, or as before when the list has none. |
| VariableContext.NestedScopeForgotten | e2immu-java-parser/src/test/java/org/e2immu/parser/java/TestParseForEach.java:31-34 | A local declared in a nested scope is found there and is still unknown in the enclosing context. |
| AnonymousTypeCounters.Increment | e2immu-java-parser/src/main/java/org/e2immu/parserimpl/AnonymousTypeCountersImpl.java:15 | incrementAndGet on an int: one more, except that the largest value is followed by the smallest. |
| AnonymousTypeCounters.Wrap32 | e2immu-java-parser/src/main/java/org/e2immu/parserimpl/AnonymousTypeCountersImpl.java:15 | After k increments from zero the counter holds k, for 1 <= k <= 2^31-1. |
| AnonymousTypeCounters.WrapStep | e2immu-java-parser/src/main/java/org/e2immu/parserimpl/AnonymousTypeCountersImpl.java:15 | One more increment moves the counter by Increment. |
| AnonymousTypeCounters.AnonymousTypeCounters.constructor | e2immu-java-parser/src/main/java/org/e2immu/parserimpl/AnonymousTypeCountersImpl.java:11 | No counters and no requests. |
| AnonymousTypeCounters.AnonymousTypeCounters.NewIndex | e2immu-java-parser/src/main/java/org/e2immu/parserimpl/AnonymousTypeCountersImpl.java:13-16 | The first request for a type gives 1, each later one the increment of the stored counter; only that type's counter changes; the counter equals the number of requests for the type, wrapped to an int. |
| AnonymousTypeCounters.AnonymousTypeCounters.Record | e2immu-java-parser/src/main/java/org/e2immu/parserimpl/AnonymousTypeCountersImpl.java:15 | Stores the new counter value and keeps every counter equal to its request count. |
| AnonymousTypeCounters.IndependentCounters | e2immu-java-parser/src/main/java/org/e2immu/parserimpl/AnonymousTypeCountersImpl.java:11-16 | Two types are numbered independently: a, b, a gives 1, 1, 2. |
| TypeContext.AsNamed | e2immu-java-parser/src/main/java/org/e2immu/parserimpl/TypeContextImpl.java:120-121 | A loaded type is returned as a named type; a failure or a missing type passes through. |
| TypeContext.Cached | e2immu-java-parser/src/main/java/org/e2immu/parserimpl/TypeContextImpl.java:170 | An on-demand subtype is registered under its fully qualified name unless the name is taken; earlier registrations stay. |
| TypeContext.FindInWildcards | e2immu-java-parser/src/main/java/org/e2immu/parserimpl/TypeContextImpl.java:177-186 | The wildcard loop finds a nested type of that name in some wildcard-imported type, and finds nothing exactly when none of them has one. |
| TypeContext.TypeContext.Chain | e2immu-java-parser/src/main/java/org/e2immu/parserimpl/TypeContextImpl.java:23 | A context and its enclosing ones; every one is at most as deep. |
| TypeContext.TypeContext.ChainAllocated | e2immu-java-parser/src/main/java/org/e2immu/parserimpl/TypeContextImpl.java:23 | Every context of the chain is allocated. |
| TypeContext.TypeContext.constructor | e2immu-java-parser/src/main/java/org/e2immu/parserimpl/TypeContextImpl.java:30-35 | A top context with the given type map, package and import map, and an empty context map. |
| TypeContext.TypeContext.Nested | e2immu-java-parser/src/main/java/org/e2immu/parserimpl/TypeContextImpl.java:37-42 | A nested context sharing the parent's type map, package and import map, with an empty context map. |
| TypeContext.TypeContext.StaticSubtype | e2immu-java-parser/src/main/java/org/e2immu/parserimpl/TypeContextImpl.java:165-168 | A found type is a nested type, of that simple name, of the type a static import of the name came from. |
| TypeContext.TypeContext.FullyQualifiedThroughImport | e2immu-java-parser/src/main/java/org/e2immu/parserimpl/TypeContextImpl.java:92-100 | A nested type unknown to the type map is found through the import of its outer type, without calling getOrCreate. |
| TypeContext.TypeContext.GetSimpleName | e2immu-java-parser/src/main/java/org/e2immu/parserimpl/TypeContextImpl.java:141-187 | The context map, then direct-import simple names, then the enclosing contexts; then on demand a nested type of a statically imported type, then of a wildcard-imported one, which is cached; nothing exactly when no stage finds the name. |
| TypeContext.TypeContext.Get | e2immu-java-parser/src/main/java/org/e2immu/parserimpl/TypeContextImpl.java:106-138 | A simple name first; else a dotted name as fully qualified, then through its prefix as GetQualified states; else java.lang.name, then package.name. |
| TypeContext.TypeContext.GetQualified | e2immu-java-parser/src/main/java/org/e2immu/parserimpl/TypeContextImpl.java:116-130 | Fully qualified first; else the resolved prefix's fully qualified name with the last segment. A prefix that is a type variable throws "?". For a prefix the read-only lookup does not see: an undotted prefix goes through java.lang and then the package, and throws "?" when neither has it (UnresolvedPrefixThrows); a prefix found on demand through a static or a wildcard import is used as that nested type. |
| TypeContext.TypeContext.UnresolvedPrefixThrows | e2immu-java-parser/src/main/java/org/e2immu/parserimpl/TypeContextImpl.java:116-130 | A one-segment prefix that no stage of the simple-name lookup finds, and that neither java.lang nor the package holds, makes the dotted lookup throw UnsupportedOperationException("?") when it does not complain. |
| TypeContext.TypeContext.ParentChainExcludes | e2immu-java-parser/src/main/java/org/e2immu/parserimpl/TypeContextImpl.java:23 | A context never occurs in its parent's chain. |
| TypeContext.TypeContext.AddToContext | e2immu-java-parser/src/main/java/org/e2immu/parserimpl/TypeContextImpl.java:194-197 | Always stored under its simple name, and then visible by it; enclosing contexts unchanged. |
| TypeContext.TypeContext.AddToContextIfAllowed | e2immu-java-parser/src/main/java/org/e2immu/parserimpl/TypeContextImpl.java:199-205 | Stored under its simple name when overwriting is allowed or the name is free. |
| TypeContext.TypeContext.AddToContextAs | e2immu-java-parser/src/main/java/org/e2immu/parserimpl/TypeContextImpl.java:207-212 | Stored under the alternative name when overwriting is allowed or the name is free. |
| TypeContext.TypeContext.AddToImportMap | e2immu-java-parser/src/main/java/org/e2immu/parserimpl/TypeContextImpl.java:44-54 | A wildcard import throws NYI; an unknown type fails; otherwise the type becomes a direct import and enters the context, and on failure nothing changes. |
| TypeContext.TypeContext.AddImport | e2immu-java-parser/src/main/java/org/e2immu/parserimpl/TypeContextImpl.java:272-277 | Registered in the import map with the given priority and directness; an import that is not direct also enters the context with that priority. |
| TypeContext.TypeContext.AddImportWildcard | e2immu-java-parser/src/main/java/org/e2immu/parserimpl/TypeContextImpl.java:279-282 | Only the wildcard set of the import map changes; the context map stays. |
| TypeContext.TypeContext.AddImportStaticWildcard | e2immu-java-parser/src/main/java/org/e2immu/parserimpl/TypeContextImpl.java:245-247 | The type becomes a static wildcard import and its subtypes visible; the context map stays. |
| TypeContext.TypeContext.AddImportStatic | e2immu-java-parser/src/main/java/org/e2immu/parserimpl/TypeContextImpl.java:249-251 | The member is bound to the type in the import map; the context map stays. |
| TypeContext.ImportOfMapAnswers | e2immu-java-parser/src/main/java/org/e2immu/parserimpl/ImportMapImpl.java:54-67 | With java.util.Map imported, Map.Entry is not found by the import map, java.util.Map.Entry is. |
| TypeContext.MapEntryName | e2immu-java-parser/src/main/java/org/e2immu/parserimpl/TypeContextImpl.java:116-126 | The prefix of Map.Entry is Map, its last segment Entry, and the rebuilt name java.util.Map.Entry. |
| TypeContext.SemiQualifiedThroughImport | e2immu-java-parser/src/main/java/org/e2immu/parserimpl/TypeContextImpl.java:116-127 | After import java.util.Map, the name Map.Entry resolves, through its prefix, to the nested type java.util.Map.Entry. |

## Left out

- **AST-walking parsers.** The code that walks the syntax tree of the source parser (ParseExpression, ParseStatement, ParseTypeDeclaration and the rest) is not part of this model. The resolver queue, the byte-code inspector, LocalTypeMap, MyFieldVisitor and MyAnnotationVisitor are not part of it either. They are thin layers over generated parser nodes, ASM and runtime builders that the core does not define.
- **External operations.** `ParameterizedType` and `TypeInfo` operations from outside the core are function parameters without properties. These are `applyTranslation`, `mostSpecific`, `ensureBoxed`, `translateType` and `detailedString`. So are the type map's `getOrCreate`, the parameter-name factory, `String.hashCode` and the runtime's `computeFunctionalInterface`. `ParameterizedType.copyWithFewerArrays` and `copyWithOneFewerArrays` are not part of this model; they are assumed to remove array dimensions and to stop at zero (JavaTypes.CopyWithFewerArrays), which MethodTypeParameterMap.PastTheEnd and MethodTypeParameterMap.TranslateMap rely on. `ensureInspection` is left out: its only effect is on inspection state, which is not modelled.
- **I/O.** `ResourcesImpl.addJmod` and `loadBytes` read jars and URLs. The URIs found on the class path are a map given to the model.
- **Concurrency.** The `synchronized` on `newIndex` is not modelled, and neither are the parallel streams of the test set-up. The model is the sequential counter.
- **Floating point.** `float` and `double` constants carry an opaque payload, and their values are not interpreted.
- **Regular expressions.** The patterns of TextBlockParser and JavaDocParser are re-expressed as explicit character scans over the same character classes. The engine itself is not modelled.
- **Java strings.** Characters are Dafny `char`. Digits are the ASCII digits only (`Integer.parseInt` also accepts other Unicode digits). The case-insensitive name comparison of the javadoc member lookup folds the case of ASCII letters only.
- **Modifiers.** Modifiers and type natures are sets and enumerations. The order in which the builders receive modifiers is not modelled.
- **ParameterizedTypeFactory.** The loadable types are a fixed set, passed in. The same lookup therefore gives the same answer on every retry of ParseGenerics, so passes 2 to 101 repeat the second pass.
- **ParseGenerics.** The source files come from slightly different versions. MyClassVisitor calls an API of ParseGenerics that differs from the one in ParseGenerics.java, and each file is modelled as it stands.
- **Java assertions.** `assert` statements are assumed to be enabled (`-ea`), so a failing one throws `AssertionError`, modelled as `AssertionFailed`. This concerns CommonParse.ScanKeyWord (a second nature keyword, CommonParse.java:145 and 155), CommonParse.HandleDecl (no identifier, line 167), CommonParse.DeclaredBase (a given type of another name, line 173) and TypeMapImpl.GetSpec (no loaded type, TypeMapImpl.java:54). With assertions disabled the source goes on instead: a second nature keyword overwrites the first, the given type is used under its own name, and `get` returns null. The model does not describe those runs.
- **ParameterizedTypeFactory.from with five arguments.** ParseParameterTypes.java:38-39 and 58-59 and ParseGenerics2.java:105-106 call a five-argument `from`, but ParameterizedTypeFactory.java only has the six-argument one (line 57). The missing overload is assumed to call it with `createStub = false`, so an unloadable class type gives null there (ParseParameterTypes.MethodEnv, ParseGenerics2.ParseGenerics2.GoReturnEndPos).
- **ParseGenerics2.** `addOrSetTypeParameter` of the type builder, which is not part of this model, is assumed to replace the parameter at its index when the list reaches that far and to append it otherwise.
- **MyClassVisitor.** The signature decoding inside `visit`, `visitField` and `visitMethod` is taken as its result, given to the model as the decoded types. The super-class and interface part of `visit` is not modelled, and neither are `visitInnerClass`, `errorStateForType` or the annotation visitors. `computeAccess` and `commitParameters` of the builders are not part of this model. The type builder is the visitor's own state, set together with the current type in `visit` (line 89), so the exception `visitEnd` throws for a missing builder (lines 430-431) cannot arise in the model. `commit` is a flag; what committing does inside the builder is not modelled. When `parseMethodGenerics` fails in `visitMethod` (lines 296-301), the source throws through `errorStateForType`. The model's decoded-types input has no value for that run: its None stands only for the null of `parseParameterTypesOfMethod`. `TypeNature.isInterface`, which is not part of this model, is assumed to hold for annotation types too.
- **MyMethodVisitor.** The parameter builders are values, so aliasing between a builder and the array entry is not modelled. The constructor requires at least one type, the return type; the class visitor fails before it creates a method visitor for an empty list. The parameter name factory is a function parameter.
- **TypeMapImpl.** `setByteCodeInspector` becomes the inspector passed to `get`. `Resources.stripDotClass` is assumed to strip a trailing `.class`. The trie is a map from paths to payloads with exact-key lookup, because the Trie class is not part of this model.
- **ResourcesImpl.** Only `fqnToPath` is modelled.
- **EscapeSequence.** Only the escape letters the source lists are modelled. `\s` and octal escapes are not in the source either, and fail like any other unknown letter.
- **JavaDocParser.** There is no concrete lemma for two inline tags on one line. The general statement is JavaDocParser.TagsInLineOrder.
- **CommonParse.** `comments`, `source` and `parseTypeParameter` work on parser nodes and runtime builders and are left out. `addSubType` on the enclosing type's builder is modelled as the `enclosingType` field of the nested type. The fully qualified name that `runtime.newTypeInfo` gives a type is assumed to be `package.name` for a primary type and `outer.name` for a nested one.
- **ParseHelperImpl.** `parseAnnotationExpression`, `parseExpression`, `resolveMethodInto` and the explicit-constructor-invocation helpers walk the syntax tree and are left out. The detailed sources are computed as positions (MakeSource) but are not put into a `DetailedSources.Builder`. In ParseHelper.ResolveReference, the type lookup `typeContext().getWithQualification(packageOrType, false)` with `getLast()` (ParseHelperImpl.java:280-281) is passed in as a map from the written name to the type, with exact-key lookup. It is not connected to the modelled TypeContext.
- **MethodTypeParameterMap.** The following are left out, because they need type-hierarchy operations of the external library:
  - `findSingleAbstractMethodOfInterface` with `makeTypeParameterMap`;
  - `formalOfSamToConcreteTypes` with `match`;
  - `mapInTermsOfParametersOfSuperType` and `mapInTermsOfParametersOfSubType`;
  - `translationMapForFunctionalInterfaces`.
- MethodTypeParameterMap.TranslateMap: only the case of a formal type without type arguments is modelled. For a functional interface, its method's concrete return type is a parameter.
- **TypeParameterMap.** A null map, which the constructor rejects, cannot be expressed in the model.
- **ImportMapImpl.** The iterable views `staticAsterisk()` and `staticMemberToTypeInfoEntrySet()` are the fields themselves.
- **TypeContextImpl.** `getFullyQualified(Class)`, `extractTypeInfo`, `staticFieldImports`, `recursivelyAddVisibleSubTypes`, `isPackagePrefix` and `toString` are left out. They need class objects, runtime reflection or the type hierarchy. The wildcard imports are a hash set, so the order in which a lookup visits them is not fixed: the model picks any one of them.
- TypeContext.TypeContext.AddToImportMap: for an unknown type the source stores a null in the import map and then fails with a null pointer. The model fails without storing anything.
- TypeContext.TypeContext.Get: for a dotted name whose prefix is itself dotted, and is found neither by the read-only part of the simple-name lookup (the context map, direct imports and enclosing contexts) nor on demand, the contract does not state the result. Resolving such a prefix recurses once more through `get`.
- TypeContext.TypeContext.GetQualified: the same gap as for Get. For a dotted prefix that no stage of the simple-name lookup finds, the result of the recursive `get` on the prefix, and so the result, is not stated. Every other prefix is covered.
- **toString and hashCode.** None of the `toString` methods is modelled. `equals` and `hashCode` of the value classes are Dafny's structural equality.

## Findings

| source | as written | input that shows it | evidently intended | confidence | as-written member | corrected member |
|---|---|---|---|---|---|---|
| e2immu-java-bytecode/src/main/java/org/e2immu/bytecode/java/asm/ParameterizedTypeFactory.java:113-114 | For a primitive type, `nextPos` is `arrays + 1` counted from the start of the signature. A leading wildcard character is not counted, and the wildcard is dropped from the result. | `+[I` reads as `int[]` without `? extends`, and the cursor stops on the `I`. So `La<+[I>;` gets a second argument, a stray `int`. | The position just after the primitive code, with the wildcard kept. | not executed | SignatureFindings.WildcardPrimitiveArrayAsWritten, SignatureFindings.WildcardPrimitiveArrayArguments | SignatureFindings.WildcardPrimitiveArrayCorrected, SignatureEncoding.DecodeEncode |
| e2immu-java-bytecode/src/main/java/org/e2immu/bytecode/java/asm/MyClassVisitor.java:238-243 | `visitField` keeps the constant value as the field's initializer only when the converted expression is empty. | A field `static final int X = 3`: the constant 3 is dropped, and only an unconvertible value would be kept. | Keep the initializer when the expression is not empty. | not executed | MyClassVisitor.InitializerAsWritten, MyClassVisitor.InitializerAsWrittenDropsConstants | MyClassVisitor.Initializer, MyClassVisitor.InitializerIsTheConstant |
| e2immu-java-bytecode/src/main/java/org/e2immu/bytecode/java/asm/MyMethodVisitor.java:184-188 | The varargs flag is set from the method's flag for the last parameter on line 185. Line 188 then overwrites it with the builder's own flag. | A varargs method whose class file has no local-variable table: the last parameter ends up not varargs. | The last parameter of a varargs method is varargs. | not executed | MyMethodVisitor.CommittedAsWritten, MyMethodVisitor.AsWrittenLosesVarargsAndStoreAnnotations | MyMethodVisitor.Committed, MyMethodVisitor.MyMethodVisitor.VisitEnd |
| e2immu-java-bytecode/src/main/java/org/e2immu/bytecode/java/asm/MyMethodVisitor.java:178-212 | The annotations from the annotation store are added to the parameter builders after the parameters have been built and added to the method. | A store entry annotating parameter 0: the method's parameter 0 has no annotation. | Map the store's annotations before the parameters are built. | not executed | MyMethodVisitor.AsWrittenLosesVarargsAndStoreAnnotations | MyMethodVisitor.StoreAnnotationsReachParameters, MyMethodVisitor.MyMethodVisitor.VisitEnd |
| e2immu-java-bytecode/src/test/java/org/e2immu/bytecode/java/TypeMapImpl.java:52 | Every type the inspector loads is stored under the queried name, not under its own name. | Loading `a.B` also loads its nested `a.B.C`. The entry for `a.B` ends up holding `a.B.C`, and `a.B.C` stays unknown. | Store each loaded type under its own fully qualified name. | not executed | TypeMapImpl.StoredAllAsWritten, TypeMapImpl.AsWrittenStoresNestedUnderOuterName | TypeMapImpl.StoredAllHolds, TypeMapImpl.TypeMap.GetOrLoad |
| e2immu-java-parser/src/main/java/org/e2immu/parser/java/util/JavaDocParser.java:39-68 | For an unknown block tag, the prefix of the match is written on line 39 and again on line 68. | The line ` * @foo bar`: ` * ` is written twice. | Keep the line's text once, and add no tag. | not executed | JavaDocParser.AsWrittenRepeatsPrefix | JavaDocParser.UnknownBlockTagKept |
