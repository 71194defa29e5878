/**
 * The admin repository: the filtered reservation listing (dynamic SQL with
 * numbered placeholders), the space and price listing, and the updates of
 * spaces and prices.
 */
module AdminRepo {
  import opened Models

  // ---------------------------------------------------------------------------
  // Filtered listing
  // ---------------------------------------------------------------------------

  /**
   * The fixed part of the listing statement. The source writes it over
   * several lines with indentation; here every run of whitespace is one
   * space, so this is the statement's text up to whitespace, not verbatim.
   */
  const BaseListQuery: string :=
    "SELECT r.code, r.user_name, r.user_email, r.user_phone, r.vehicle_type_id, vt.name AS vehicle_type_name, "
    + "r.vehicle_plate, r.vehicle_model, r.payment_method_id, pm.name AS payment_method_name, "
    + "COALESCE(r.payment_status, '') AS payment_status, r.status, r.start_time, r.end_time, r.created_at, "
    + "r.updated_at, COALESCE(r.total_price, 0) AS total_price FROM reservations r "
    + "JOIN vehicle_types vt ON vt.id = r.vehicle_type_id JOIN payment_method pm ON pm.id = r.payment_method_id "
    + "WHERE 1=1"

  const OrderByNewest: string := " ORDER BY r.created_at DESC"

  // Each filter condition; its placeholder `$n` follows it.
  const StartDateCondition: string := " AND DATE(r.start_time) >= "
  const EndDateCondition: string := " AND DATE(r.end_time) <= "
  const CodeCondition: string := " AND r.code LIKE "
  const VehicleTypeCondition: string := " AND vt.name = "
  const StatusCondition: string := " AND r.status = "

  /** One WHERE condition and the argument bound to its placeholder. */
  datatype Filter = Filter(condition: string, arg: string)

  /** The filter a parameter contributes: one when the parameter is non-empty, none otherwise. */
  function FilterIfSet(value: string, condition: string, arg: string): (fs: seq<Filter>)
    ensures |fs| == if value != "" then 1 else 0
    ensures forall i :: 0 <= i < |fs| ==> fs[i] == Filter(condition, arg)
  {
    if value != "" then [Filter(condition, arg)] else []
  }

  /** The filters that apply, in the fixed order start date, end date, code, vehicle type, status. */
  function ActiveFilters(code: string, startTime: string, endTime: string, vehicleType: string, status: string)
    : seq<Filter>
  {
    FilterIfSet(startTime, StartDateCondition, startTime)
    + FilterIfSet(endTime, EndDateCondition, endTime)
    + FilterIfSet(code, CodeCondition, "%" + code + "%")
    + FilterIfSet(vehicleType, VehicleTypeCondition, vehicleType)
    + FilterIfSet(status, StatusCondition, status)
  }

  function DigitChar(d: int): char
    requires 0 <= d < 10
  {
    ('0' as int + d) as char
  }

  /** The number a string of decimal digits denotes, most significant digit first. */
  function DecValue(s: string): nat
    requires forall i :: 0 <= i < |s| ==> '0' <= s[i] <= '9'
  {
    if s == [] then 0 else DecValue(s[..|s| - 1]) * 10 + (s[|s| - 1] as int - '0' as int)
  }

  /** strconv.Itoa for non-negative numbers: decimal digits that denote `n`. */
  function Itoa(n: nat): (s: string)
    ensures |s| > 0
    ensures forall i :: 0 <= i < |s| ==> '0' <= s[i] <= '9'
    ensures DecValue(s) == n
    ensures n >= 10 ==> s[0] != '0'
  {
    if n < 10 then [DigitChar(n)]
    else
      var prefix := Itoa(n / 10);
      var s := prefix + [DigitChar(n % 10)];
      assert s[..|s| - 1] == prefix;
      s
  }

  /** The appended conditions, the k-th (from 0) followed by placeholder `$` + (first + k). */
  function WhereClauses(fs: seq<Filter>, first: nat): string
  {
    if fs == [] then ""
    else WhereClauses(fs[..|fs| - 1], first) + fs[|fs| - 1].condition + "$" + Itoa(first + |fs| - 1)
  }

  function Args(fs: seq<Filter>): (args: seq<string>)
    ensures |args| == |fs|
    ensures forall i :: 0 <= i < |fs| ==> args[i] == fs[i].arg
  {
    seq(|fs|, i requires 0 <= i < |fs| => fs[i].arg)
  }

  /** The whole statement: base, filters numbered from $1, newest first, then LIMIT and OFFSET verbatim. */
  function ListQuery(code: string, startTime: string, endTime: string, vehicleType: string, status: string,
                     limit: string, offset: string): string
  {
    BaseListQuery + WhereClauses(ActiveFilters(code, startTime, endTime, vehicleType, status), 1) + OrderByNewest
    + (if limit != "" then " LIMIT " + limit else "")
    + (if offset != "" then " OFFSET " + offset else "")
  }

  /** The builder's state: the statement so far, its arguments and the next placeholder number. */
  ghost predicate Built(query: string, args: seq<string>, idx: int, fs: seq<Filter>)
  {
    query == BaseListQuery + WhereClauses(fs, 1) && args == Args(fs) && idx == |fs| + 1
  }

  /** Appending one condition with placeholder `$idx` and its argument keeps the builder's state. */
  lemma BuildStep(query: string, args: seq<string>, idx: int, fs: seq<Filter>, f: Filter)
    requires Built(query, args, idx, fs)
    ensures Built(query + f.condition + "$" + Itoa(idx), args + [f.arg], idx + 1, fs + [f])
  {
    assert (fs + [f])[..|fs|] == fs;
    assert WhereClauses(fs + [f], 1) == WhereClauses(fs, 1) + f.condition + "$" + Itoa(idx);
  }

  /** One `if value != ""` step of the builder: the condition, its placeholder and its argument. */
  method AppendFilter(query: string, args: seq<string>, idx: int, ghost fs: seq<Filter>,
                      value: string, condition: string, arg: string)
    returns (query': string, args': seq<string>, idx': int)
    requires Built(query, args, idx, fs) && idx >= 0
    ensures Built(query', args', idx', fs + FilterIfSet(value, condition, arg)) && idx' >= 0
  {
    query', args', idx' := query, args, idx;
    if value != "" {
      BuildStep(query, args, idx, fs, Filter(condition, arg));
      query' := query + condition + "$" + Itoa(idx);
      args' := args + [arg];
      idx' := idx + 1;
    } else {
      assert fs + FilterIfSet(value, condition, arg) == fs;
    }
  }

  /**
   * The WHERE part of ListReservationsWithFilters: each non-empty filter
   * appends one condition and one argument, with the placeholder counter
   * advancing in step.
   */
  method AppendFilters(code: string, startTime: string, endTime: string, vehicleType: string, status: string)
    returns (query: string, args: seq<string>)
    ensures query == BaseListQuery + WhereClauses(ActiveFilters(code, startTime, endTime, vehicleType, status), 1)
    ensures args == Args(ActiveFilters(code, startTime, endTime, vehicleType, status))
  {
    query := BaseListQuery;
    args := [];
    var idx := 1;
    assert Built(query, args, idx, []) by {
      assert WhereClauses([], 1) == "";
    }
    var a := FilterIfSet(startTime, StartDateCondition, startTime);
    var b := FilterIfSet(endTime, EndDateCondition, endTime);
    var c := FilterIfSet(code, CodeCondition, "%" + code + "%");
    var d := FilterIfSet(vehicleType, VehicleTypeCondition, vehicleType);
    query, args, idx := AppendFilter(query, args, idx, [], startTime, StartDateCondition, startTime);
    assert [] + a == a;
    query, args, idx := AppendFilter(query, args, idx, a, endTime, EndDateCondition, endTime);
    query, args, idx := AppendFilter(query, args, idx, a + b, code, CodeCondition, "%" + code + "%");
    query, args, idx := AppendFilter(query, args, idx, a + b + c, vehicleType, VehicleTypeCondition, vehicleType);
    query, args, idx := AppendFilter(query, args, idx, a + b + c + d, status, StatusCondition, status);
  }

  /** The whole statement and its arguments: the filters, newest first, then LIMIT and OFFSET verbatim. */
  method BuildListQuery(code: string, startTime: string, endTime: string, vehicleType: string, status: string,
                        limit: string, offset: string)
    returns (query: string, args: seq<string>)
    ensures query == ListQuery(code, startTime, endTime, vehicleType, status, limit, offset)
    ensures args == Args(ActiveFilters(code, startTime, endTime, vehicleType, status))
  {
    query, args := AppendFilters(code, startTime, endTime, vehicleType, status);
    query := query + OrderByNewest;
    if limit != "" {
      query := query + (" LIMIT " + limit);
    }
    if offset != "" {
      query := query + (" OFFSET " + offset);
    }
  }

  function CountChar(s: string, c: char): nat
  {
    if s == [] then 0 else CountChar(s[..|s| - 1], c) + (if s[|s| - 1] == c then 1 else 0)
  }

  lemma {:induction false} CountCharConcat(a: string, b: string, c: char)
    ensures CountChar(a + b, c) == CountChar(a, c) + CountChar(b, c)
  {
    if b != [] {
      CountCharConcat(a, b[..|b| - 1], c);
      assert (a + b)[..|a + b| - 1] == a + b[..|b| - 1];
      assert (a + b)[|a + b| - 1] == b[|b| - 1];
    } else {
      assert a + b == a;
    }
  }

  lemma {:induction false} CountCharAbsent(s: string, c: char)
    requires c !in s
    ensures CountChar(s, c) == 0
  {
    if s != [] {
      CountCharAbsent(s[..|s| - 1], c);
    }
  }

  /**
   * The WHERE part holds exactly one placeholder per argument: `$` appears
   * once per filter, never inside a condition or a number.
   */
  lemma {:induction false} PlaceholdersMatchArgs(fs: seq<Filter>, first: nat)
    requires PlaceholderFree(fs)
    ensures CountChar(WhereClauses(fs, first), '$') == |Args(fs)|
  {
    if fs != [] {
      var front := fs[..|fs| - 1];
      var f := fs[|fs| - 1];
      PlaceholdersMatchArgs(front, first);
      CountCharAbsent(f.condition, '$');
      CountCharAbsent(Itoa(first + |fs| - 1), '$');
      CountCharConcat(WhereClauses(front, first) + f.condition + "$", Itoa(first + |fs| - 1), '$');
      CountCharConcat(WhereClauses(front, first) + f.condition, "$", '$');
      CountCharConcat(WhereClauses(front, first), f.condition, '$');
      assert CountChar("$", '$') == 1 by {
        assert "$"[..0] == [];
      }
    }
  }

  /** For the listing, the filter part carries as many placeholders as there are arguments. */
  lemma ListPlaceholdersMatchArgs(code: string, startTime: string, endTime: string, vehicleType: string, status: string)
    ensures var fs := ActiveFilters(code, startTime, endTime, vehicleType, status);
      CountChar(WhereClauses(fs, 1), '$') == |Args(fs)|
  {
    var a := FilterIfSet(startTime, StartDateCondition, startTime);
    var b := FilterIfSet(endTime, EndDateCondition, endTime);
    var c := FilterIfSet(code, CodeCondition, "%" + code + "%");
    var d := FilterIfSet(vehicleType, VehicleTypeCondition, vehicleType);
    var e := FilterIfSet(status, StatusCondition, status);
    ConditionsArePlaceholderFree();
    FilterIfSetPlaceholderFree(startTime, StartDateCondition, startTime);
    FilterIfSetPlaceholderFree(endTime, EndDateCondition, endTime);
    FilterIfSetPlaceholderFree(code, CodeCondition, "%" + code + "%");
    FilterIfSetPlaceholderFree(vehicleType, VehicleTypeCondition, vehicleType);
    FilterIfSetPlaceholderFree(status, StatusCondition, status);
    PlaceholderFreeConcat(a, b);
    PlaceholderFreeConcat(a + b, c);
    PlaceholderFreeConcat(a + b + c, d);
    PlaceholderFreeConcat(a + b + c + d, e);
    PlaceholdersMatchArgs(ActiveFilters(code, startTime, endTime, vehicleType, status), 1);
  }

  lemma ConditionsArePlaceholderFree()
    ensures '$' !in StartDateCondition && '$' !in EndDateCondition && '$' !in CodeCondition
    ensures '$' !in VehicleTypeCondition && '$' !in StatusCondition
  {
  }

  lemma FilterIfSetPlaceholderFree(value: string, condition: string, arg: string)
    requires '$' !in condition
    ensures PlaceholderFree(FilterIfSet(value, condition, arg))
  {
  }

  ghost predicate PlaceholderFree(fs: seq<Filter>)
  {
    forall i :: 0 <= i < |fs| ==> '$' !in fs[i].condition
  }

  lemma PlaceholderFreeConcat(a: seq<Filter>, b: seq<Filter>)
    requires PlaceholderFree(a) && PlaceholderFree(b)
    ensures PlaceholderFree(a + b)
  {
    forall i | 0 <= i < |a + b| ensures '$' !in (a + b)[i].condition {
      if i >= |a| {
        assert (a + b)[i] == b[i - |a|];
      }
    }
  }

  /** The code filter matches the code anywhere: its argument is the code between % wildcards. */
  lemma CodeFilterIsSubstringMatch(code: string)
    requires code != ""
    ensures Args(ActiveFilters(code, "", "", "", "")) == ["%" + code + "%"]
    ensures WhereClauses(ActiveFilters(code, "", "", "", ""), 1) == CodeCondition + "$1"
  {
    var fs := ActiveFilters(code, "", "", "", "");
    assert fs == [Filter(CodeCondition, "%" + code + "%")];
    assert fs[..0] == [];
    assert Itoa(1) == "1";
  }

  /** A listed row as the statement selects it. */
  datatype ReservationResponse = ReservationResponse(
    code: string, userName: string, userEmail: string, userPhone: string,
    vehicleTypeId: int, vehicleTypeName: string, vehiclePlate: string, vehicleModel: string,
    paymentMethodId: int, paymentMethodName: string, paymentStatus: string, status: string,
    startTime: int, endTime: int, createdAt: int, updatedAt: int, totalPrice: int)

  /** The database's answer to a statement: its rows (None where a row fails to scan), or an error. */
  datatype QueryAnswer<T> = Rows(rows: seq<Option<T>>) | QueryFailed(message: string)

  /** The rows that scanned, in query order. */
  function Scanned<T(!new)>(rows: seq<Option<T>>): (kept: seq<T>)
    ensures |kept| <= |rows|
    ensures forall x :: x in kept <==> Some(x) in rows
  {
    if rows == [] then []
    else
      var front := Scanned(rows[..|rows| - 1]);
      assert forall x :: Some(x) in rows <==> Some(x) in rows[..|rows| - 1] || rows[|rows| - 1] == Some(x);
      match rows[|rows| - 1]
      case None => front
      case Some(x) => front + [x]
  }

  /** The row loop: rows that fail to scan are skipped without an error. */
  method ScanRows<T(!new)>(rows: seq<Option<T>>) returns (kept: seq<T>)
    ensures kept == Scanned(rows)
  {
    kept := [];
    for i := 0 to |rows|
      invariant kept == Scanned(rows[..i])
    {
      assert rows[..i + 1][..i] == rows[..i];
      if rows[i].Some? {
        kept := kept + [rows[i].value];
      }
    }
    assert rows[..|rows|] == rows;
  }

  /**
   * ListReservationsWithFilters, parameters in its own order (code first).
   * Returns the statement and arguments it sends together with the listing
   * built from the database's answer to them.
   */
  method ListReservationsWithFilters(code: string, startTime: string, endTime: string, vehicleType: string,
                                     status: string, limit: string, offset: string,
                                     answer: QueryAnswer<ReservationResponse>)
    returns (query: string, args: seq<string>, r: Result<seq<ReservationResponse>>)
    ensures query == ListQuery(code, startTime, endTime, vehicleType, status, limit, offset)
    ensures args == Args(ActiveFilters(code, startTime, endTime, vehicleType, status))
    ensures answer.QueryFailed? ==> r == Err(Store(answer.message))
    ensures answer.Rows? ==> r == Ok(Scanned(answer.rows))
  {
    query, args := BuildListQuery(code, startTime, endTime, vehicleType, status, limit, offset);
    if answer.QueryFailed? {
      return query, args, Err(Store(answer.message));
    }
    var reservations := ScanRows(answer.rows);
    r := Ok(reservations);
  }

  // ---------------------------------------------------------------------------
  // Spaces and prices listing
  // ---------------------------------------------------------------------------

  datatype SpaceRow = SpaceRow(vehicleTypeId: int, vehicleTypeName: string, spaces: int)

  datatype PriceRow = PriceRow(timeName: string, price: int)

  datatype VehicleSpaceWithPrices = VehicleSpaceWithPrices(vehicleType: string, spaces: int, prices: map<string, int>)

  /** The price map of one vehicle type: keyed by time name, one key per time name that has a row. */
  function PriceMap(rows: seq<Option<PriceRow>>): (m: map<string, int>)
    ensures forall k :: k in m <==> exists i :: 0 <= i < |rows| && rows[i].Some? && rows[i].value.timeName == k
  {
    if rows == [] then map[]
    else
      var front := rows[..|rows| - 1];
      var m := PriceMap(front);
      assert forall i :: 0 <= i < |front| ==> front[i] == rows[i];
      match rows[|rows| - 1]
      case None => m
      case Some(p) => m[p.timeName := p.price]
  }

  /** Row i is the last price row named k. */
  ghost predicate LastRowNamed(rows: seq<Option<PriceRow>>, i: int, k: string)
  {
    0 <= i < |rows| && rows[i].Some? && rows[i].value.timeName == k &&
    forall j :: i < j < |rows| ==> !(rows[j].Some? && rows[j].value.timeName == k)
  }

  /** When a time name has several rows, the map holds the price of the last one. */
  lemma {:induction false} PriceMapLastRowWins(rows: seq<Option<PriceRow>>, k: string)
    requires k in PriceMap(rows)
    ensures exists i :: LastRowNamed(rows, i, k) && rows[i].value.price == PriceMap(rows)[k]
  {
    var front := rows[..|rows| - 1];
    var last := rows[|rows| - 1];
    if last.Some? && last.value.timeName == k {
      assert LastRowNamed(rows, |rows| - 1, k);
    } else {
      PriceMapLastRowWins(front, k);
      var i :| LastRowNamed(front, i, k) && front[i].value.price == PriceMap(front)[k];
      assert rows[i] == front[i];
      assert LastRowNamed(rows, i, k);
    }
  }

  /** The listing entry for one space row whose prices were read. */
  function EntryOf(row: SpaceRow, priceAnswers: map<int, seq<Option<PriceRow>>>): VehicleSpaceWithPrices
    requires row.vehicleTypeId in priceAnswers
  {
    VehicleSpaceWithPrices(row.vehicleTypeName, row.spaces, PriceMap(priceAnswers[row.vehicleTypeId]))
  }

  /** A space row that scanned and whose price query answered. */
  predicate Listed(row: Option<SpaceRow>, priceAnswers: map<int, seq<Option<PriceRow>>>)
  {
    row.Some? && row.value.vehicleTypeId in priceAnswers
  }

  /**
   * Reference definition of the listing: one entry per scanned space row
   * whose price query answered (`priceAnswers` lacks the ids whose price
   * query failed), in row order.
   */
  function VehicleSpaces(spaceRows: seq<Option<SpaceRow>>, priceAnswers: map<int, seq<Option<PriceRow>>>)
    : (r: seq<VehicleSpaceWithPrices>)
    ensures |r| <= |spaceRows|
  {
    if spaceRows == [] then []
    else
      var done := VehicleSpaces(spaceRows[..|spaceRows| - 1], priceAnswers);
      var last := spaceRows[|spaceRows| - 1];
      if Listed(last, priceAnswers) then done + [EntryOf(last.value, priceAnswers)] else done
  }

  /** Every entry of the listing comes from a listed row, and every listed row yields an entry. */
  lemma {:induction false} VehicleSpacesEntries(spaceRows: seq<Option<SpaceRow>>,
                                                priceAnswers: map<int, seq<Option<PriceRow>>>)
    ensures forall e :: e in VehicleSpaces(spaceRows, priceAnswers) ==>
      exists i :: 0 <= i < |spaceRows| && Listed(spaceRows[i], priceAnswers) && e == EntryOf(spaceRows[i].value, priceAnswers)
    ensures forall i :: 0 <= i < |spaceRows| && Listed(spaceRows[i], priceAnswers) ==>
      EntryOf(spaceRows[i].value, priceAnswers) in VehicleSpaces(spaceRows, priceAnswers)
  {
    if spaceRows != [] {
      var front := spaceRows[..|spaceRows| - 1];
      VehicleSpacesEntries(front, priceAnswers);
      assert forall i :: 0 <= i < |front| ==> front[i] == spaceRows[i];
    }
  }

  /** The price row loop of one vehicle type. */
  method CollectPrices(rows: seq<Option<PriceRow>>) returns (prices: map<string, int>)
    ensures prices == PriceMap(rows)
  {
    prices := map[];
    for i := 0 to |rows|
      invariant prices == PriceMap(rows[..i])
    {
      assert rows[..i + 1][..i] == rows[..i];
      if rows[i].Some? {
        prices := prices[rows[i].value.timeName := rows[i].value.price];
      }
    }
    assert rows[..|rows|] == rows;
  }

  /** ListVehicleSpaces: unreadable rows and types whose price query fails are skipped. */
  method ListVehicleSpaces(answer: QueryAnswer<SpaceRow>, priceAnswers: map<int, seq<Option<PriceRow>>>)
    returns (r: Result<seq<VehicleSpaceWithPrices>>)
    ensures answer.QueryFailed? ==> r == Err(Store(answer.message))
    ensures answer.Rows? ==> r == Ok(VehicleSpaces(answer.rows, priceAnswers))
  {
    if answer.QueryFailed? {
      return Err(Store(answer.message));
    }
    var rows := answer.rows;
    var result := [];
    for i := 0 to |rows|
      invariant result == VehicleSpaces(rows[..i], priceAnswers)
    {
      assert rows[..i + 1][..i] == rows[..i];
      if rows[i].None? {
        continue;
      }
      var row := rows[i].value;
      if row.vehicleTypeId !in priceAnswers {
        continue;
      }
      var prices := CollectPrices(priceAnswers[row.vehicleTypeId]);
      result := result + [VehicleSpaceWithPrices(row.vehicleTypeName, row.spaces, prices)];
    }
    assert rows[..|rows|] == rows;
    r := Ok(result);
  }

  // ---------------------------------------------------------------------------
  // Updates of spaces and prices
  // ---------------------------------------------------------------------------

  /** Some vehicle type with this id carries this name. */
  predicate HasName(types: seq<VehicleType>, id: int, name: string)
  {
    exists i :: 0 <= i < |types| && types[i].id == id && types[i].name == name
  }

  /** vehicle_spaces after `UPDATE ... SET spaces = $1 FROM vehicle_types WHERE ... vt.name = $2`. */
  function SpacesAfterUpdate(spaces: map<int, int>, types: seq<VehicleType>, vehicleType: string, newSpaces: int)
    : (r: map<int, int>)
    ensures r.Keys == spaces.Keys
    ensures forall id :: id in r ==> r[id] == if HasName(types, id, vehicleType) then newSpaces else spaces[id]
  {
    map id | id in spaces :: if HasName(types, id, vehicleType) then newSpaces else spaces[id]
  }

  /** Sets the spaces of every row whose type has that name; no match is no error. */
  method UpdateVehicleSpaces(db: Database, vehicleType: string, spaces: int, failure: Option<string>)
    returns (err: Option<Error>)
    modifies db`spaces
    ensures failure.Some? ==> err == Some(Store(failure.value)) && db.spaces == old(db.spaces)
    ensures failure.None? ==> err == None && db.spaces == SpacesAfterUpdate(old(db.spaces), db.vehicleTypes, vehicleType, spaces)
  {
    if failure.Some? {
      return Some(Store(failure.value));
    }
    db.spaces := SpacesAfterUpdate(db.spaces, db.vehicleTypes, vehicleType, spaces);
    err := None;
  }

  /**
   * `SELECT id FROM ... WHERE name = $1` answered by `QueryRow`: the first
   * entry with that name. The statement has no ORDER BY, so with a repeated
   * name the database may return any of its rows; the model fixes the first.
   */
  function LookupId(entries: seq<(int, string)>, name: string): (r: Option<int>)
    ensures r.Some? <==> exists i :: 0 <= i < |entries| && entries[i].1 == name
    ensures r.Some? ==> exists i :: 0 <= i < |entries| && entries[i] == (r.value, name)
                                   && forall j :: 0 <= j < i ==> entries[j].1 != name
  {
    if entries == [] then None
    else if entries[0].1 == name then Some(entries[0].0)
    else
      var rest := LookupId(entries[1..], name);
      assert forall i :: 0 < i < |entries| ==> entries[i] == entries[1..][i - 1];
      assert rest.Some? ==> exists i :: 0 <= i < |entries| && entries[i].1 == name;
      rest
  }

  function TypeEntries(types: seq<VehicleType>): seq<(int, string)>
  {
    seq(|types|, i requires 0 <= i < |types| => (types[i].id, types[i].name))
  }

  function TimeEntries(times: seq<ReservationTime>): seq<(int, string)>
  {
    seq(|times|, i requires 0 <= i < |times| => (times[i].id, times[i].name))
  }

  /**
   * The price upsert: both names must resolve, then the one price of
   * (type, time) is inserted or replaced and every other price is kept.
   */
  function UpsertPrice(types: seq<VehicleType>, times: seq<ReservationTime>, prices: map<(int, int), int>,
                       vehicleType: string, timeName: string, price: int)
    : (r: Result<map<(int, int), int>>)
    ensures LookupId(TypeEntries(types), vehicleType).None? ==> r == Err(UnknownVehicleType(vehicleType))
    ensures LookupId(TypeEntries(types), vehicleType).Some? && LookupId(TimeEntries(times), timeName).None?
            ==> r == Err(UnknownTimeName(timeName))
    ensures LookupId(TypeEntries(types), vehicleType).Some? && LookupId(TimeEntries(times), timeName).Some?
            ==> r.Ok?
    ensures r.Ok? ==>
      var key := (LookupId(TypeEntries(types), vehicleType).value, LookupId(TimeEntries(times), timeName).value);
      r.value.Keys == prices.Keys + {key} && r.value[key] == price &&
      forall k :: k in prices && k != key ==> r.value[k] == prices[k]
  {
    match LookupId(TypeEntries(types), vehicleType)
    case None => Err(UnknownVehicleType(vehicleType))
    case Some(vehicleTypeId) =>
      match LookupId(TimeEntries(times), timeName)
      case None => Err(UnknownTimeName(timeName))
      case Some(reservationTimeId) => Ok(prices[(vehicleTypeId, reservationTimeId) := price])
  }

  /** UpdateVehiclePrice: an unknown name is an error before anything is written. */
  method UpdateVehiclePrice(db: Database, vehicleType: string, timeName: string, price: int) returns (err: Option<Error>)
    modifies db`prices
    ensures var u := UpsertPrice(db.vehicleTypes, db.reservationTimes, old(db.prices), vehicleType, timeName, price);
      (u.Err? ==> err == Some(u.error) && db.prices == old(db.prices)) &&
      (u.Ok? ==> err == None && db.prices == u.value)
  {
    var typeId := LookupId(TypeEntries(db.vehicleTypes), vehicleType);
    if typeId.None? {
      return Some(UnknownVehicleType(vehicleType));
    }
    var timeId := LookupId(TimeEntries(db.reservationTimes), timeName);
    if timeId.None? {
      return Some(UnknownTimeName(timeName));
    }
    db.prices := db.prices[(typeId.value, timeId.value) := price];
    err := None;
  }
}
