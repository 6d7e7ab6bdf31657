module SignatureFindings {
  import opened JavaLang
  import opened JavaTypes
  import opened ParameterizedTypeFactory
  import opened SignatureEncoding

  /**
   * As written, `from` on `+[I` (an `? extends int[]` argument) stops the
   * cursor at `I` instead of after it, and drops the wildcard.
   */
  lemma {:induction false} WildcardPrimitiveArrayAsWritten(env: Env)
    ensures TypeFrom(env, AsWritten, "+[I>") == Done(Result(PrimitiveType(Int, 1, NoWildcard), 2, false))
  {
    assert Brackets("+[I>", 2) == 0;
  }

  /** So the argument list of `La<+[I>;` reads two arguments, the second one the stray `I`. */
  lemma {:induction false} WildcardPrimitiveArrayArguments(env: Env)
    ensures ArgumentsFrom(env, AsWritten, "La<+[I>;", 3, [], false)
         == Done(TypeArguments([PrimitiveType(Int, 1, NoWildcard), PrimitiveType(Int, 0, NoWildcard)], 7, false))
  {
    var sig := "La<+[I>;";
    WildcardPrimitiveArrayAsWritten(env);
    assert sig[3..] == "+[I>;";
    assert TypeFrom(env, AsWritten, "+[I>;") == Done(Result(PrimitiveType(Int, 1, NoWildcard), 2, false)) by {
      assert Brackets("+[I>;", 2) == 0;
    }
    assert ArgStep(env, AsWritten, sig, 3, false) == Done(Step(PrimitiveType(Int, 1, NoWildcard), true, 5, 0, false));
    assert sig[5..] == "I>;";
    assert ArgStep(env, AsWritten, sig, 5, false) == Done(Step(PrimitiveType(Int, 0, NoWildcard), false, 0, 7, false));
    var first := [PrimitiveType(Int, 1, NoWildcard)];
    assert [] + first == first;
    assert ArgumentsFrom(env, AsWritten, sig, 5, first, false)
        == Done(TypeArguments(first + [PrimitiveType(Int, 0, NoWildcard)], 7, false));
    assert first + [PrimitiveType(Int, 0, NoWildcard)] == [PrimitiveType(Int, 1, NoWildcard), PrimitiveType(Int, 0, NoWildcard)];
  }

  /** Corrected, the same signature decodes to the one type it encodes. */
  lemma {:induction false} WildcardPrimitiveArrayCorrected(env: Env)
    requires "a" in env.loadable
    ensures TypeFrom(env, Corrected, "La<+[I>;")
         == Done(Result(ClassType(Loaded("a"), 0, NoWildcard, [PrimitiveType(Int, 1, Extends)]), 8, false))
  {
    var pt := ClassType(Loaded("a"), 0, NoWildcard, [PrimitiveType(Int, 1, Extends)]);
    assert AllWellFormed(env, [PrimitiveType(Int, 1, Extends)]);
    assert EncodeAll([PrimitiveType(Int, 1, Extends)]) == "+[I";
    assert Encode(pt) == "La<+[I>;";
    DecodeEncode(env, pt, "");
    assert Encode(pt) + "" == "La<+[I>;";
  }
}
