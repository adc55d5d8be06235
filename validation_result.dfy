/**
 * The findings accumulator of the validator: three message lists that
 * grow as checks run, and a pass/fail verdict that depends on the error
 * list alone.
 */
module ValidationResults {

  /** The text an error is recorded as. */
  function ErrorText(msg: string): string {
    "ERROR: " + msg
  }

  /** The text a warning is recorded as. */
  function WarningText(msg: string): string {
    "WARNING: " + msg
  }

  /** The text an informational message is recorded as. */
  function InfoText(msg: string): string {
    "INFO: " + msg
  }

  /** The three prefixes tell the kinds apart: no error text is also a
      warning or info text, whatever the messages. */
  lemma KindsDistinct(a: string, b: string)
    ensures ErrorText(a) != WarningText(b)
    ensures ErrorText(a) != InfoText(b)
    ensures WarningText(a) != InfoText(b)
  {
    assert ErrorText(a)[0] == 'E' && WarningText(b)[0] == 'W' && InfoText(b)[0] == 'I';
    assert WarningText(a)[0] == 'W';
  }

  class ValidationResult {
    var errors: seq<string>
    var warnings: seq<string>
    var info: seq<string>

    constructor ()
      ensures errors == [] && warnings == [] && info == []
    {
      errors := [];
      warnings := [];
      info := [];
    }

    /** Records one error; the other lists are untouched. */
    method Error(msg: string)
      modifies this
      ensures errors == old(errors) + [ErrorText(msg)]
      ensures warnings == old(warnings) && info == old(info)
      ensures !IsValid()
    {
      errors := errors + [ErrorText(msg)];
    }

    /** Records one warning; the verdict does not change. */
    method Warning(msg: string)
      modifies this
      ensures warnings == old(warnings) + [WarningText(msg)]
      ensures errors == old(errors) && info == old(info)
      ensures IsValid() == old(IsValid())
    {
      warnings := warnings + [WarningText(msg)];
    }

    /** Records one informational message; the verdict does not change. */
    method AddInfo(msg: string)
      modifies this
      ensures info == old(info) + [InfoText(msg)]
      ensures errors == old(errors) && warnings == old(warnings)
      ensures IsValid() == old(IsValid())
    {
      info := info + [InfoText(msg)];
    }

    /** The verdict: no error was recorded. */
    predicate IsValid()
      reads this
      ensures IsValid() <==> errors == []
    {
      |errors| == 0
    }
  }
}
