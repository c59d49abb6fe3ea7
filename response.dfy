/** The user-facing messages built from an operation's outcome. */
module Response {
  import opened Wrappers
  import opened StdStr
  import opened Store

  /** `format_error_message` */
  function FormatErrorMessage(operation: string, details: string): string {
    operation + ": " + details
  }

  /** `format_success_message`: nothing, one, or a counted number of rows. */
  function FormatSuccessMessage(operation: string, count: nat): string {
    if count == 0 then "No items found for " + operation
    else if count == 1 then operation + " completed successfully"
    else operation + " completed successfully for " + NatToString(count) + " items"
  }

  const ForeignKeyViolation: string := "23503"
  const CheckViolation: string := "23514"

  /** The constraint violations that get a fixed message of their own. */
  predicate IsConstraintError(e: DbError) {
    e.Database? && e.code.Some?
    && (e.code.value == ForeignKeyViolation || e.code.value == UniqueViolation || e.code.value == CheckViolation)
  }

  /** `format_database_error` */
  function FormatDatabaseError(e: DbError, operation: string): string {
    match e
      case RowNotFound => "No records found for " + operation
      case Database(code) =>
        if code == Some(ForeignKeyViolation) then "Cannot perform operation due to foreign key constraint"
        else if code == Some(UniqueViolation) then "Record already exists"
        else if code == Some(CheckViolation) then "Data validation failed"
        else "Database error during " + operation
      case ColumnNotFound(_) => "Internal error during " + operation
  }

  /** `s` ends with `t`. */
  predicate EndsWith(s: string, t: string) {
    |t| <= |s| && s[|s| - |t|..] == t
  }

  // ---------------------------------------------------------------------
  // Lemmas

  /** The operation and the details can be read back from an error message. */
  lemma ErrorMessageSplits(operation: string, details: string)
    ensures var m := FormatErrorMessage(operation, details);
            && m[..|operation|] == operation
            && m[|operation|..|operation| + 2] == ": "
            && m[|operation| + 2..] == details
  {
  }

  /** For one operation, the message says how many rows there were. */
  lemma {:induction false} SuccessMessageInjective(operation: string, a: nat, b: nat)
    requires FormatSuccessMessage(operation, a) == FormatSuccessMessage(operation, b)
    ensures a == b
  {
    var head := operation + " completed successfully for ";
    if a >= 2 && b >= 2 {
      var ma, mb := FormatSuccessMessage(operation, a), FormatSuccessMessage(operation, b);
      assert ma == head + NatToString(a) + " items";
      assert mb == head + NatToString(b) + " items";
      assert ma[|head|..|ma| - 6] == NatToString(a);
      assert mb[|head|..|mb| - 6] == NatToString(b);
      NatToStringInjective(a, b);
    } else {
      assert |FormatSuccessMessage(operation, a)| == |FormatSuccessMessage(operation, b)|;
    }
  }

  /** Every message of a counted success names the operation at its start. */
  lemma SuccessMessageNamesOperation(operation: string, count: nat)
    requires count > 0
    ensures IsPrefix(operation, FormatSuccessMessage(operation, count))
  {
  }

  /**
   * The three constraint violations get fixed messages that do not depend
   * on the operation, one distinct message each; every other error ends
   * with the operation's name.
   */
  lemma DatabaseErrorMeaning(e: DbError, op1: string, op2: string)
    ensures IsConstraintError(e) ==> FormatDatabaseError(e, op1) == FormatDatabaseError(e, op2)
    ensures !IsConstraintError(e) ==> EndsWith(FormatDatabaseError(e, op1), op1)
  {
  }

  /** Distinct constraint violations read differently. */
  lemma ConstraintMessagesDistinct(e1: DbError, e2: DbError, operation: string)
    requires IsConstraintError(e1) && IsConstraintError(e2) && e1 != e2
    ensures FormatDatabaseError(e1, operation) != FormatDatabaseError(e2, operation)
  {
    assert e1.code != e2.code;
  }
}
