/**
 * The command-line scan of the driver: an input path, the `--review` flag
 * with an optional numeric limit, in any order, or an error exit.
 */
module Cli {
  import opened Wrappers

  /** The settings the scan produces. */
  datatype Options = Options(input: string, review: bool, limit: nat)

  /** Why the driver exits with status 1 before reading any file. */
  datatype ArgError = UnknownFlag(arg: string) | MissingInput

  const ReviewFlag: string := "--review"
  const DefaultLimit: nat := 10

  /** An argument starting with a dash is read as a flag; the empty string is not one. */
  predicate IsFlag(a: string)
  {
    |a| > 0 && a[0] == '-'
  }

  /** A non-empty run of decimal digits (ASCII digits only). */
  predicate IsDigits(a: string)
  {
    |a| > 0 && forall k :: 0 <= k < |a| ==> '0' <= a[k] <= '9'
  }

  /** The number a run of digits denotes, most significant digit first. */
  function DigitsValue(a: string): nat
    requires forall k :: 0 <= k < |a| ==> '0' <= a[k] <= '9'
  {
    if |a| == 0 then 0 else DigitsValue(a[..|a| - 1]) * 10 + (a[|a| - 1] - '0') as nat
  }

  /** The variables of the scanning loop. */
  datatype Scan = Scan(review: bool, limit: nat, input: Option<string>)

  /**
   * The scanning loop from argument `i` on (add_kyrgyz_names.py:272-291):
   * `--review` turns review mode on and takes the next argument as the limit
   * when it is all digits; the first argument without a leading dash becomes
   * the input path and later ones are ignored; any other flag stops the scan.
   */
  function ScanArgs(args: seq<string>, i: nat, sc: Scan): (r: Result<Scan, ArgError>)
    requires i <= |args|
    ensures r.Failure? ==>
      && r.error.UnknownFlag? && r.error.arg in args[i..]
      && IsFlag(r.error.arg) && r.error.arg != ReviewFlag
    ensures r.Success? ==> (r.value.review <==> sc.review || ReviewFlag in args[i..])
    ensures r.Success? && sc.input.Some? ==> r.value.input == sc.input
    ensures r.Success? && sc.input.None? && r.value.input.Some? ==>
      r.value.input.value in args[i..] && !IsFlag(r.value.input.value)
    ensures r.Success? && r.value.limit != sc.limit ==> r.value.review
    decreases |args| - i
  {
    if i == |args| then
      Success(sc)
    else
      var a := args[i];
      assert a in args[i..];
      assert args[i + 1..] == args[i..][1..];
      if a == ReviewFlag then
        if i + 1 < |args| && IsDigits(args[i + 1]) then
          assert args[i + 2..] == args[i..][2..];
          ScanArgs(args, i + 2, sc.(review := true, limit := DigitsValue(args[i + 1])))
        else
          ScanArgs(args, i + 1, sc.(review := true))
      else if !IsFlag(a) then
        ScanArgs(args, i + 1, if sc.input.None? then sc.(input := Some(a)) else sc)
      else
        Failure(UnknownFlag(a))
  }

  /**
   * The driver's argument handling (add_kyrgyz_names.py:264-300): the scan,
   * then a usage error when no input path was given or the recorded path is
   * the empty string.
   */
  function ParseArgs(args: seq<string>): (r: Result<Options, ArgError>)
    ensures r.Success? ==> r.value.input in args && r.value.input != "" && !IsFlag(r.value.input)
    ensures r.Success? ==> (r.value.review <==> ReviewFlag in args)
    ensures r.Success? && !r.value.review ==> r.value.limit == DefaultLimit
    ensures r.Failure? && r.error.UnknownFlag? ==>
      r.error.arg in args && IsFlag(r.error.arg) && r.error.arg != ReviewFlag
  {
    assert args[0..] == args;
    match ScanArgs(args, 0, Scan(false, DefaultLimit, None))
    case Failure(e) => Failure(e)
    case Success(sc) =>
      if sc.input.None? || sc.input.value == "" then Failure(MissingInput)
      else Success(Options(sc.input.value, sc.review, sc.limit))
  }

  /** What an argument is, read by its position in the whole list. */
  datatype Role = LimitArg | ReviewArg | PathArg | UnknownArg

  /**
   * The role of argument `k`: all digits right after `--review` is a limit,
   * then `--review` itself, any other dashed argument is unknown, and the
   * rest are paths.
   */
  function RoleAt(args: seq<string>, k: nat): Role
    requires k < |args|
  {
    if 0 < k && args[k - 1] == ReviewFlag && IsDigits(args[k]) then LimitArg
    else if args[k] == ReviewFlag then ReviewArg
    else if IsFlag(args[k]) then UnknownArg
    else PathArg
  }

  /** The first position at or after `k` holding an argument of the given role. */
  function FirstRole(args: seq<string>, k: nat, role: Role): (r: Option<nat>)
    requires k <= |args|
    ensures r.Some? ==>
      && k <= r.value < |args| && RoleAt(args, r.value) == role
      && forall m :: k <= m < r.value ==> RoleAt(args, m) != role
    ensures r.None? ==> forall m :: k <= m < |args| ==> RoleAt(args, m) != role
    decreases |args| - k
  {
    if k == |args| then None
    else if RoleAt(args, k) == role then Some(k)
    else FirstRole(args, k + 1, role)
  }

  /** The last position at or after `k` holding an argument of the given role. */
  function LastRole(args: seq<string>, k: nat, role: Role): (r: Option<nat>)
    requires k <= |args|
    ensures r.Some? ==>
      && k <= r.value < |args| && RoleAt(args, r.value) == role
      && forall m :: r.value < m < |args| ==> RoleAt(args, m) != role
    ensures r.None? ==> forall m :: k <= m < |args| ==> RoleAt(args, m) != role
    decreases |args| - k
  {
    if k == |args| then None
    else
      match LastRole(args, k + 1, role)
      case Some(m) => Some(m)
      case None => if RoleAt(args, k) == role then Some(k) else None
  }

  /**
   * The argument handling read position by position instead of as a loop:
   * the first unknown flag is the error; otherwise the first path is the
   * input, review mode is on when `--review` appears anywhere, and the limit
   * is the last number that follows a `--review`.
   */
  function ReferenceParse(args: seq<string>): Result<Options, ArgError>
  {
    match FirstRole(args, 0, UnknownArg)
    case Some(k) => Failure(UnknownFlag(args[k]))
    case None =>
      match FirstRole(args, 0, PathArg)
      case None => Failure(MissingInput)
      case Some(k) =>
        if args[k] == "" then Failure(MissingInput)
        else
          var limit := match LastRole(args, 0, LimitArg)
            case None => DefaultLimit
            case Some(m) => DigitsValue(args[m]);
          Success(Options(args[k], FirstRole(args, 0, ReviewArg).Some?, limit))
  }

  /**
   * The outcome of the scanning loop from position `i` on, read positionally:
   * the first unknown flag from there is the error, and otherwise every
   * variable of the loop takes the value the remaining arguments give it.
   */
  function ScanOutcome(args: seq<string>, i: nat, sc: Scan): Result<Scan, ArgError>
    requires i <= |args|
  {
    match FirstRole(args, i, UnknownArg)
    case Some(k) => Failure(UnknownFlag(args[k]))
    case None =>
      var limit := match LastRole(args, i, LimitArg)
        case None => sc.limit
        case Some(m) => DigitsValue(args[m]);
      var input := if sc.input.Some? then sc.input
        else match FirstRole(args, i, PathArg)
          case None => None
          case Some(k) => Some(args[k]);
      Success(Scan(sc.review || FirstRole(args, i, ReviewArg).Some?, limit, input))
  }

  /**
   * The scanning loop from a position it can reach (one that is not a limit)
   * agrees with the positional reading of the remaining arguments.
   */
  lemma {:induction false} ScanMatchesRoles(args: seq<string>, i: nat, sc: Scan)
    requires i <= |args| && (i < |args| ==> RoleAt(args, i) != LimitArg)
    ensures ScanArgs(args, i, sc) == ScanOutcome(args, i, sc)
    decreases |args| - i
  {
    if i < |args| {
      var a := args[i];
      if a == ReviewFlag {
        if i + 1 < |args| && IsDigits(args[i + 1]) {
          ConsumedPair(args, i, sc);
          ScanMatchesRoles(args, i + 2, sc.(review := true, limit := DigitsValue(args[i + 1])));
        } else {
          BareReview(args, i, sc);
          ScanMatchesRoles(args, i + 1, sc.(review := true));
        }
      } else if !IsFlag(a) {
        PathArgument(args, i, sc);
        ScanMatchesRoles(args, i + 1, if sc.input.None? then sc.(input := Some(a)) else sc);
      } else {
        UnknownArgument(args, i, sc);
      }
    }
  }

  /** Skipping `--review` and the number after it takes the number as the limit. */
  lemma ConsumedPair(args: seq<string>, i: nat, sc: Scan)
    requires i + 1 < |args| && args[i] == ReviewFlag && IsDigits(args[i + 1])
    ensures ScanOutcome(args, i, sc)
         == ScanOutcome(args, i + 2, sc.(review := true, limit := DigitsValue(args[i + 1])))
    ensures i + 2 < |args| ==> RoleAt(args, i + 2) != LimitArg
  {
    ReviewArgument(args, i, sc);
    LimitArgument(args, i + 1, sc.(review := true));
  }

  /** Skipping a `--review` not followed by a number only turns review mode on. */
  lemma BareReview(args: seq<string>, i: nat, sc: Scan)
    requires i < |args| && args[i] == ReviewFlag && !(i + 1 < |args| && IsDigits(args[i + 1]))
    ensures ScanOutcome(args, i, sc) == ScanOutcome(args, i + 1, sc.(review := true))
    ensures i + 1 < |args| ==> RoleAt(args, i + 1) != LimitArg
  {
    ReviewArgument(args, i, sc);
  }

  /** Skipping a `--review`, read positionally, turns review mode on. */
  lemma ReviewArgument(args: seq<string>, i: nat, sc: Scan)
    requires i < |args| && args[i] == ReviewFlag
    ensures ScanOutcome(args, i, sc) == ScanOutcome(args, i + 1, sc.(review := true))
  {
    assert !IsDigits(args[i]) by { assert args[i][0] == '-'; }
    assert RoleAt(args, i) == ReviewArg;
  }

  /** Skipping a limit, read positionally, sets the limit unless a later one overrides it. */
  lemma LimitArgument(args: seq<string>, i: nat, sc: Scan)
    requires i < |args| && RoleAt(args, i) == LimitArg
    ensures ScanOutcome(args, i, sc) == ScanOutcome(args, i + 1, sc.(limit := DigitsValue(args[i])))
    ensures i + 1 < |args| ==> RoleAt(args, i + 1) != LimitArg
  {
    assert args[i] != ReviewFlag by { assert args[i][0] != '-'; }
  }

  /** Skipping a path records it when no path was recorded yet. */
  lemma PathArgument(args: seq<string>, i: nat, sc: Scan)
    requires i < |args| && RoleAt(args, i) != LimitArg && !IsFlag(args[i])
    ensures ScanOutcome(args, i, sc)
         == ScanOutcome(args, i + 1, if sc.input.None? then sc.(input := Some(args[i])) else sc)
    ensures i + 1 < |args| ==> RoleAt(args, i + 1) != LimitArg
  {
    assert args[i] != ReviewFlag;
    assert RoleAt(args, i) == PathArg;
  }

  /** An unknown flag at a position the loop reaches is the error. */
  lemma UnknownArgument(args: seq<string>, i: nat, sc: Scan)
    requires i < |args| && RoleAt(args, i) != LimitArg && IsFlag(args[i]) && args[i] != ReviewFlag
    ensures ScanOutcome(args, i, sc) == Failure(UnknownFlag(args[i]))
  {
    assert RoleAt(args, i) == UnknownArg;
  }

  /** The driver's argument loop and the positional reading agree on every argument list. */
  lemma ParseMatchesReference(args: seq<string>)
    ensures ParseArgs(args) == ReferenceParse(args)
  {
    ScanMatchesRoles(args, 0, Scan(false, DefaultLimit, None));
  }

  /**
   * The path and the review flag with its limit may come in either order
   * (add_kyrgyz_names.py:296-299), provided the path is not itself a number.
   */
  lemma ReviewBeforeOrAfterPath(path: string, limit: string)
    requires path != "" && !IsFlag(path) && !IsDigits(path) && IsDigits(limit)
    ensures ParseArgs([path, ReviewFlag, limit]) == Success(Options(path, true, DigitsValue(limit)))
    ensures ParseArgs([ReviewFlag, limit, path]) == Success(Options(path, true, DigitsValue(limit)))
  {
    var a1 := [path, ReviewFlag, limit];
    var sc := Scan(false, DefaultLimit, None);
    assert ScanArgs(a1, 0, sc) == ScanArgs(a1, 1, sc.(input := Some(path)));
    assert ScanArgs(a1, 1, sc.(input := Some(path))) == Success(Scan(true, DigitsValue(limit), Some(path)));
    var a2 := [ReviewFlag, limit, path];
    assert ScanArgs(a2, 0, sc) == ScanArgs(a2, 2, sc.(review := true, limit := DigitsValue(limit)));
    assert ScanArgs(a2, 2, sc.(review := true, limit := DigitsValue(limit))) == Success(Scan(true, DigitsValue(limit), Some(path)));
  }

  /** Without a limit the review flag may also come before or after the path. */
  lemma BareReviewBeforeOrAfterPath(path: string)
    requires path != "" && !IsFlag(path) && !IsDigits(path)
    ensures ParseArgs([path, ReviewFlag]) == Success(Options(path, true, DefaultLimit))
    ensures ParseArgs([ReviewFlag, path]) == Success(Options(path, true, DefaultLimit))
    ensures ParseArgs([path]) == Success(Options(path, false, DefaultLimit))
  {
    var sc := Scan(false, DefaultLimit, None);
    var a1 := [path, ReviewFlag];
    assert ScanArgs(a1, 0, sc) == ScanArgs(a1, 1, sc.(input := Some(path)));
    assert ScanArgs(a1, 1, sc.(input := Some(path))) == Success(Scan(true, DefaultLimit, Some(path)));
    var a2 := [ReviewFlag, path];
    assert ScanArgs(a2, 0, sc) == ScanArgs(a2, 1, sc.(review := true));
    assert ScanArgs(a2, 1, sc.(review := true)) == Success(Scan(true, DefaultLimit, Some(path)));
    var a3 := [path];
    assert ScanArgs(a3, 0, sc) == ScanArgs(a3, 1, sc.(input := Some(path)));
  }

  /**
   * A numeric path right after `--review` is taken as the limit, so the same
   * two arguments parse differently in the other order.
   */
  lemma NumericPathOrderMatters()
    ensures ParseArgs([ReviewFlag, "2024"]) == Failure(MissingInput)
    ensures ParseArgs(["2024", ReviewFlag]) == Success(Options("2024", true, DefaultLimit))
  {
    assert IsDigits("2024");
    assert !IsFlag("2024");
    var sc := Scan(false, DefaultLimit, None);
    var a := ["2024", ReviewFlag];
    assert "2024" != ReviewFlag;
    assert ScanArgs(a, 0, sc) == ScanArgs(a, 1, sc.(input := Some("2024")));
    assert ScanArgs(a, 1, sc.(input := Some("2024"))) == Success(Scan(true, DefaultLimit, Some("2024")));
  }

  /**
   * An empty first argument is recorded as the path, so a later real path is
   * ignored and the driver exits with the usage message.
   */
  lemma EmptyPathHidesLaterPath(path: string)
    requires !IsFlag(path)
    ensures ParseArgs(["", path]) == Failure(MissingInput)
  {
    var sc := Scan(false, DefaultLimit, None);
    var a := ["", path];
    assert ScanArgs(a, 0, sc) == ScanArgs(a, 1, sc.(input := Some("")));
  }

  /** The scan stops at the first unknown flag, before it looks at later ones or checks for a path. */
  lemma FirstUnknownFlagWins(a: string, b: string)
    requires IsFlag(a) && a != ReviewFlag
    ensures ParseArgs([a, b]) == Failure(UnknownFlag(a))
  {
  }
}
