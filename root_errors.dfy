/** The dumper's ROOT error handler: it silences ROOT's warning that a class
    has no dictionary and hands every other diagnostic to ROOT's default
    handler. */
module RootErrors {
  import opened CppString

  /** ROOT's severity level kWarning (TError.h). */
  const kWarning: int := 2000

  /** One call of a ROOT error handler: level, the "abort" flag, the
      location (a C string compared with strcmp) and the message. */
  datatype Diagnostic = Diagnostic(level: int, die: bool, location: string, message: StdString)

  /** What the handler does with a diagnostic. */
  datatype Disposition = Ignored | Forwarded(diagnostic: Diagnostic)

  /** The condition the handler tests, as one predicate over the diagnostic. */
  ghost predicate IsMissingDictionaryWarning(d: Diagnostic)
  {
    d.level == kWarning && !d.die && d.location == "TClass::TClass"
    && Contains(d.message, "no dictionary")
  }

  /** RootErrorHandler: return without reporting for the missing-dictionary
      warning, otherwise call DefaultErrorHandler with the same arguments. */
  function RootErrorHandler(d: Diagnostic): (r: Disposition)
    ensures r == Ignored <==> IsMissingDictionaryWarning(d)
    ensures r != Ignored ==> r == Forwarded(d)
  {
    FindFindsIff(d.message, "no dictionary");
    if d.level == kWarning && !d.die && d.location == "TClass::TClass"
       && Find(d.message, "no dictionary") != NPOS
    then Ignored
    else Forwarded(d)
  }

  /** A concrete missing-dictionary warning is suppressed, and the same
      message at error level is not. */
  lemma DictionaryWarningExample()
    ensures RootErrorHandler(Diagnostic(kWarning, false, "TClass::TClass",
              "no dictionary for class X")) == Ignored
    ensures RootErrorHandler(Diagnostic(kWarning + 1000, false, "TClass::TClass",
              "no dictionary for class X")).Forwarded?
  {
    var m: string := "no dictionary for class X";
    assert |m| == 25 && m[0..13] == "no dictionary";
    assert OccursAt(m, "no dictionary", 0);
  }
}
