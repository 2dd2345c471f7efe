/** Values shared by every module: the two failure datatypes and the source's numeric limits. */
module Prelude {

  datatype Option<+T> = None | Some(value: T)

  datatype Result<+T, +E> = Ok(value: T) | Err(error: E)

  /** The `DB_*` codes a repository method can throw. */
  datatype Error =
    | InvalidInput
    | NotFound
    | Conflict
    | IdempotencyConflict
    | ProjectArchived
    | TaskHashConflict
    | PolicyHashConflict
    | RepositoryImmutable

  /** Milliseconds since the epoch, as a JavaScript `Date` holds them. */
  type Time = int

  const MAX_SAFE_INTEGER := 9_007_199_254_740_991
  const UINT96_MAX := 0xFFFF_FFFF_FFFF_FFFF_FFFF_FFFF
  const UINT64_MAX := 0xFFFF_FFFF_FFFF_FFFF
  const BIGINT_MAX := 0x7FFF_FFFF_FFFF_FFFF
  const INTEGER_MAX := 0x7FFF_FFFF

  /** The last millisecond a JavaScript `Date` can hold. */
  const DATE_LIMIT := 8_640_000_000_000_000

  /** The first and last millisecond whose ISO form has a plain four-digit year. */
  const FIRST_FOUR_DIGIT_YEAR := -62_167_219_200_000
  const LAST_FOUR_DIGIT_YEAR := 253_402_300_799_999

  predicate ValidDate(at: Time) {
    -DATE_LIMIT <= at <= DATE_LIMIT
  }

  /** `toISOString` output that the ISO date-time schema accepts (years 0000 to 9999). */
  predicate IsoReadable(at: Time) {
    FIRST_FOUR_DIGIT_YEAR <= at <= LAST_FOUR_DIGIT_YEAR
  }

  lemma {:induction false} SubsetSize<T>(a: set<T>, b: set<T>)
    requires a <= b
    ensures |a| <= |b|
    decreases a
  {
    if a != {} {
      var x :| x in a;
      SubsetSize(a - {x}, b - {x});
    }
  }

  lemma SameBag<T>(a: seq<T>, b: seq<T>, x: T)
    requires multiset(a) == multiset(b)
    ensures x in a <==> x in b
  {
    assert x in multiset(a) <==> x in multiset(b);
  }

  /** `t` holds the successors of `s`, and perhaps zero. */
  lemma ShiftedSize(s: set<nat>, t: set<nat>, first: bool)
    requires forall i: nat :: i in t <==> (i == 0 && first) || (i > 0 && i - 1 in s)
    ensures |t| == |s| + if first then 1 else 0
    decreases s
  {
    if s == {} {
      assert t == if first then {0} else {};
    } else {
      var x :| x in s;
      ShiftedSize(s - {x}, t - {x + 1}, first);
    }
  }
}
