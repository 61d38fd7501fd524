/** `IdempotentStatusEnum`: the status of an idempotency record and the
    lookup of a status by its numeric code. */
module IdempotentStatus {
  import opened Results

  datatype Status = Ing | Success | Fail {
    /** `getCode()`. */
    function Code(): int {
      match this
      case Ing => 0
      case Success => 1
      case Fail => 2
    }
  }

  /** `values()`: the constants in declaration order. */
  const Values: seq<Status> := [Ing, Success, Fail]

  /** The first status of `candidates` whose code is `code`, as the stream
      `filter(...).findFirst()` picks it, or None. */
  function FirstWithCode(candidates: seq<Status>, code: int): (r: Option<Status>)
    ensures r.None? <==> forall i :: 0 <= i < |candidates| ==> candidates[i].Code() != code
    ensures r.Some? ==> exists i :: 0 <= i < |candidates| && candidates[i] == r.value
                                    && r.value.Code() == code
                                    && forall j :: 0 <= j < i ==> candidates[j].Code() != code
  {
    if candidates == [] then None
    else if candidates[0].Code() == code then Some(candidates[0])
    else
      var r := FirstWithCode(candidates[1..], code);
      assert r.Some? ==> exists i :: 0 <= i < |candidates| && candidates[i] == r.value
                                     && r.value.Code() == code
                                     && forall j :: 0 <= j < i ==> candidates[j].Code() != code
      by {
        if r.Some? {
          var i :| 0 <= i < |candidates[1..]| && candidates[1..][i] == r.value
                   && r.value.Code() == code
                   && forall j :: 0 <= j < i ==> candidates[1..][j].Code() != code;
          assert candidates[i + 1] == r.value;
          assert forall j :: 0 <= j < i + 1 ==> candidates[j].Code() != code by {
            forall j | 0 <= j < i + 1 ensures candidates[j].Code() != code {
              if j > 0 { assert candidates[j] == candidates[1..][j - 1]; }
            }
          }
        }
      }
      r
  }

  /** `getByCode(code)`. */
  function GetByCode(code: int): (r: Option<Status>)
    ensures r.Some? ==> r.value.Code() == code
    ensures r.None? <==> forall st: Status :: st.Code() != code
  {
    assert forall st: Status :: Values[st.Code()] == st;
    FirstWithCode(Values, code)
  }

  /** The code table: ING is 0, SUCCESS is 1, FAIL is 2. */
  lemma StatusCodes()
    ensures Ing.Code() == 0 && Success.Code() == 1 && Fail.Code() == 2
  {
  }

  /** `getCode` is injective, so the first match is the only match. */
  lemma CodeInjective(a: Status, b: Status)
    ensures a.Code() == b.Code() ==> a == b
  {
  }

  /** `getByCode` inverts `getCode`. */
  lemma GetByCodeInverse(s: Status)
    ensures GetByCode(s.Code()) == Some(s)
  {
    var r := GetByCode(s.Code());
    assert Values[s.Code()] == s;
    assert r.Some? && r.value.Code() == s.Code();
    CodeInjective(r.value, s);
  }

  /** `getByCode` gives null for every code outside {0, 1, 2}, and a status
      for every code inside it. */
  lemma GetByCodeNull(code: int)
    ensures GetByCode(code).None? <==> code != 0 && code != 1 && code != 2
  {
    if code == 0 || code == 1 || code == 2 {
      assert Values[code].Code() == code;
    }
  }
}
