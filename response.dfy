// The standard response bodies: success with its data merged in, error with optional field
// errors, and a page of items with its pagination block.
module Response {
  import Wrappers
  import opened Json

  // ---------------------------------------------------------------- success

  /** The two entries every success body starts with. */
  function SuccessHead(message: string): seq<(string, Value)>
  {
    [("success", Bool(true)), ("message", Str(message))]
  }

  /**
   * `success_response`: a dict is merged at the top level, where its keys override `success`
   * and `message`; any other value goes under `data`; None (Null) adds nothing.
   */
  method Success(data: Value, message: string, statusCode: int) returns (response: seq<(string, Value)>, code: int)
    ensures code == statusCode
    ensures data.Obj? && IsDict(data.fields) ==>
      forall q :: Lookup(response, q) == if q in Keys(data.fields) then Lookup(data.fields, q) else Lookup(SuccessHead(message), q)
    ensures data.Obj? ==> forall q :: q in Keys(response) <==> q in Keys(SuccessHead(message)) || q in Keys(data.fields)
    ensures data.Null? ==> response == SuccessHead(message)
    ensures !data.Obj? && !data.Null? ==> response == SuccessHead(message) + [("data", data)]
  {
    response := SuccessHead(message);
    if !data.Null? {
      if data.Obj? {
        response := Update(response, data.fields);
        forall q | true
          ensures q in Keys(response) <==> q in Keys(SuccessHead(message)) || q in Keys(data.fields)
        {
          UpdateKeys(SuccessHead(message), data.fields, q);
        }
        if IsDict(data.fields) {
          forall q | true
            ensures Lookup(response, q) == if q in Keys(data.fields) then Lookup(data.fields, q) else Lookup(SuccessHead(message), q)
          {
            UpdateGet(SuccessHead(message), data.fields, q);
          }
        }
      } else {
        assert "data" !in Keys(response);
        SetFresh(response, "data", data);
        response := Set(response, "data", data);
      }
    }
    code := statusCode;
  }

  /** A dict without `success` or `message` keys is appended after the two head entries, in its order. */
  lemma MergeAppends(message: string, fields: seq<(string, Value)>)
    requires IsDict(fields) && "success" !in Keys(fields) && "message" !in Keys(fields)
    ensures Update(SuccessHead(message), fields) == SuccessHead(message) + fields
  {
    forall i | 0 <= i < |fields| ensures fields[i].0 !in Keys(SuccessHead(message)) {
      assert fields[i].0 in Keys(fields);
      assert Keys(SuccessHead(message)) == ["success", "message"];
    }
    UpdateFresh(SuccessHead(message), fields);
  }

  // ---------------------------------------------------------------- error

  /** `error_response`: `success` false, the message under `error`, the field errors only when non-empty. */
  method Error(message: string, statusCode: int, errors: Value) returns (response: seq<(string, Value)>, code: int)
    ensures code == statusCode
    ensures Keys(response) == ["success", "error"] + (if Truthy(errors) then ["errors"] else [])
    ensures Lookup(response, "success") == Wrappers.Some(Bool(false))
    ensures Lookup(response, "error") == Wrappers.Some(Str(message))
    ensures Truthy(errors) ==> Lookup(response, "errors") == Wrappers.Some(errors)
  {
    var head := [("success", Bool(false)), ("error", Str(message))];
    assert Keys(head) == ["success", "error"];
    response := head;
    if Truthy(errors) {
      SetFresh(head, "errors", errors);
      response := Set(head, "errors", errors);
      KeysAppend(head, [("errors", errors)]);
      SetGet(head, "errors", errors, "success");
      SetGet(head, "errors", errors, "error");
      SetGet(head, "errors", errors, "errors");
    }
    code := statusCode;
  }

  // ---------------------------------------------------------------- pagination

  /** Monotonicity of multiplying by a positive number. */
  lemma MulMono(a: int, b: int, n: int)
    requires a <= b && n > 0
    ensures a * n <= b * n
  {
    assert b * n - a * n == (b - a) * n;
  }

  /** `(total + per_page - 1) // per_page`: the number of pages of `per_page` items that hold `total` items. */
  function TotalPages(total: int, perPage: int): (pages: int)
    requires perPage > 0
    ensures (pages - 1) * perPage < total <= pages * perPage
  {
    var q := (total + perPage - 1) / perPage;
    var r := (total + perPage - 1) % perPage;
    assert q * perPage + r == total + perPage - 1 && 0 <= r < perPage;
    assert (q - 1) * perPage == q * perPage - perPage;
    q
  }

  /** No items make no pages; a positive total fills at least one. */
  lemma PagesOfCount(total: nat, perPage: int)
    requires perPage > 0
    ensures TotalPages(total, perPage) >= 0
    ensures TotalPages(total, perPage) == 0 <==> total == 0
  {
    var p := TotalPages(total, perPage);
    if p < 0 {
      MulMono(p, -1, perPage);
    }
    if p >= 1 {
      MulMono(1, p, perPage);
    }
  }

  /** The `pagination` block. */
  function Pagination(page: int, perPage: int, total: int): (r: Value)
    requires perPage > 0
    ensures r.Obj? && Keys(r.fields) == ["page", "per_page", "total", "total_pages", "has_next", "has_prev"]
    ensures r.fields[0].1 == Int(page) && r.fields[1].1 == Int(perPage) && r.fields[2].1 == Int(total)
    ensures r.fields[3].1 == Int(TotalPages(total, perPage))
    ensures r.fields[4].1 == Bool(page < TotalPages(total, perPage))
    ensures r.fields[5].1 == Bool(page > 1)
  {
    var pages := TotalPages(total, perPage);
    Obj([("page", Int(page)), ("per_page", Int(perPage)), ("total", Int(total)), ("total_pages", Int(pages)),
         ("has_next", Bool(page < pages)), ("has_prev", Bool(page > 1))])
  }

  /** There is a next page exactly when the items up to this page fall short of the total. */
  lemma HasNextIffMoreItems(page: int, perPage: int, total: int)
    requires perPage > 0
    ensures Pagination(page, perPage, total).fields[4].1.b <==> page * perPage < total
  {
    var p := TotalPages(total, perPage);
    if page < p {
      MulMono(page, p - 1, perPage);
    } else {
      MulMono(p, page, perPage);
    }
  }

  /** `paginated_response`: the items under `data`, the pagination block, always status 200. */
  function Paginated(items: seq<Value>, page: int, perPage: int, total: int, message: string): (r: (Value, int))
    requires perPage > 0
    ensures r.1 == 200
    ensures r.0.Obj? && Keys(r.0.fields) == ["success", "message", "data", "pagination"]
    ensures r.0.fields[0].1 == Bool(true) && r.0.fields[1].1 == Str(message) && r.0.fields[2].1 == Arr(items)
    ensures r.0.fields[3].1 == Pagination(page, perPage, total)
  {
    (Obj([("success", Bool(true)), ("message", Str(message)), ("data", Arr(items)),
          ("pagination", Pagination(page, perPage, total))]), 200)
  }
}
