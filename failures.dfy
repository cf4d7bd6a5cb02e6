/**
 * The fatal errors of find_decomp_set.py (`Failure`) and of
 * gen_decomp_set_icnfs/solve_decomp_set.cpp (`SolveFailure`): each is an
 * `assert`, an index or a conversion that fails and ends the run with no
 * result.
 */
module Failures {

  datatype Failure =
    | BadStagedName       // no '_' after position 0 in the part before "bitM.cnf"
    | NoSuchFile          // the staged CNF cannot be opened
    | TooFewLines         // the staged CNF has at most two lines
    | EmptyLine           // an empty line, whose first character does not exist
    | MalformedHeader     // a 'p' line without an integer third field
    | BlankClause         // a clause line with no word, whose last word does not exist
    | MissingTerminator   // a clause line whose last word is not "0"
    | MalformedLiteral    // a two-word clause whose first word is not an integer
    | UnitCountMismatch   // the decomposition-set unit clauses are not one per variable
    | NonPositiveVarNum   // no 'p' line, or one declaring no variables
    | NonPositiveAverage  // a candidate set whose average runtime is not positive
    | NotOneLine          // the decomposition-set file does not hold exactly one line
    | MalformedNumber     // a bound of the range, or a listed value, is not an integer
    | NonPositiveValue    // a value of the decomposition set is not positive
    | WrongSize           // the decomposition set does not have 32 variables

  /**
   * The fatal outcomes of gen_decomp_set_icnfs/solve_decomp_set.cpp: an exit
   * on a file that does not open, a failed `assert`, or an exception thrown
   * by `std::stoi` or `std::string::erase`.
   */
  datatype SolveFailure =
    | CannotOpen          // an input file cannot be opened
    | NoClauses           // the CNF holds no clause line
    | ZeroToken           // a decomposition-set word is exactly "0"
    | NotANumber          // a decomposition-set word does not start with a decimal integer
    | OutOfIntRange       // a decomposition-set word's integer does not fit an `int`
    | NonPositiveVariable // a decomposition-set value is not a positive variable
    | NoVariables         // the first line of the decomposition-set file holds no word
    | NoDotSlash          // the CNF name holds no "./"
    | NoCnfSuffix         // the CNF name, once its first "./" is erased, holds no ".cnf"
    | UnsupportedSize     // fewer than 14 variables, or 32 or more beyond the first 14
}

