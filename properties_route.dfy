/**
 * `GET` and `POST /api/properties`: the filtered listing query, and an
 * admin creating a property with an optional assignment. The id MySQL
 * generates for the insert is the parameter `insertId`.
 */
module PropertiesRoute {
  import opened Wrappers
  import opened Js
  import opened Text
  import opened Db
  import opened Auth

  /**
   * The correlated subquery both listings select, the assigned-user count.
   * The template literals are written in short pieces so that the absence of
   * a placeholder can be checked piece by piece.
   */
  const AssignedCount := "(SELECT " + "COUNT(*) " + "FROM " + "property_" + "users pu " + "WHERE pu." + "property_" + "id = " + "p.id) " + "as " + "assigned_" + "users_" + "count"

  /** The listing without a user filter (the template literal, line breaks included). */
  const BaseQuery := "\n      " + "SELECT " + "p.*, " + "\n        " + AssignedCount + "\n      " + "FROM " + "properties " + "p" + "\n    "

  /** The listing joined with the assignments, up to its one placeholder. */
  const JoinQueryHead := "\n        " + "SELECT " + "p.*, " + "\n          " + AssignedCount + "\n        " + "FROM " + "properties " + "p"
    + "\n        " + "JOIN " + "property_" + "users pu " + "ON p.id = " + "pu.property" + "_id" + "\n        " + "WHERE " + "pu.user_id " + "= "

  const JoinQuery := JoinQueryHead + "?" + "\n      "
  const ParcelCondition := "p.parcel_id = " + "?"
  const StatusCondition := "p.status = " + "?"
  const Where := " WHERE "
  const And := " AND "
  const OrderBy := " ORDER BY " + "p.created_at DESC"

  /** The conditions `GET` pushes, parcel id first. */
  function Conditions(parcelId: Option<string>, status: Option<string>): (c: seq<string>)
    ensures |c| == (if Truthy(parcelId) then 1 else 0) + (if Truthy(status) then 1 else 0)
    ensures Truthy(parcelId) ==> c[0] == ParcelCondition
    ensures Truthy(status) ==> c[|c| - 1] == StatusCondition
  {
    (if Truthy(parcelId) then [ParcelCondition] else []) + (if Truthy(status) then [StatusCondition] else [])
  }

  /** The parameters pushed with them, in the same order. */
  function FilterParams(parcelId: Option<string>, status: Option<string>): (p: seq<string>)
    ensures |p| == |Conditions(parcelId, status)|
    ensures Truthy(parcelId) ==> p[0] == parcelId.value
    ensures Truthy(status) ==> p[|p| - 1] == status.value
  {
    (if Truthy(parcelId) then [parcelId.value] else []) + (if Truthy(status) then [status.value] else [])
  }

  /**
   * The statement `GET` runs. The user filter replaces the whole query, so
   * the parcel and status conditions leave the SQL, while their values stay
   * in the parameters, ahead of the user id.
   */
  function ListQuery(parcelId: Option<string>, status: Option<string>, userId: Option<string>): (s: Statement)
    ensures s.params == FilterParams(parcelId, status) + (if Truthy(userId) then [userId.value] else [])
  {
    var conds := Conditions(parcelId, status);
    var params := FilterParams(parcelId, status);
    if Truthy(userId) then Statement(JoinQuery + OrderBy, params + [userId.value])
    else if conds != [] then Statement(BaseQuery + Where + Join(conds, And) + OrderBy, params)
    else Statement(BaseQuery + OrderBy, params)
  }

  /**
   * The shape of the SQL: it always ends with the order clause; with a user
   * filter it is the join query alone; without one it starts with the base
   * query, and gets a WHERE clause of the conditions joined by AND exactly
   * when some filter is truthy.
   */
  lemma ListQueryShape(parcelId: Option<string>, status: Option<string>, userId: Option<string>)
    ensures var sql := ListQuery(parcelId, status, userId).sql;
            && |sql| >= |OrderBy| && sql[|sql| - |OrderBy|..] == OrderBy
            && (Truthy(userId) ==> sql == JoinQuery + OrderBy)
            && (!Truthy(userId) ==> |sql| >= |BaseQuery| && sql[..|BaseQuery|] == BaseQuery)
            && (!Truthy(userId) ==> (Conditions(parcelId, status) == [] <==> sql == BaseQuery + OrderBy))
            && (!Truthy(userId) && Conditions(parcelId, status) != [] ==>
                  sql == BaseQuery + Where + Join(Conditions(parcelId, status), And) + OrderBy)
  {
  }

  /** The handler's builder: pushes and reassignments, as the route makes them. */
  method BuildListQuery(parcelId: Option<string>, status: Option<string>, userId: Option<string>) returns (s: Statement)
    ensures s == ListQuery(parcelId, status, userId)
  {
    var query := BaseQuery;
    var whereConditions: seq<string> := [];
    var params: seq<string> := [];
    if Truthy(parcelId) {
      whereConditions := whereConditions + [ParcelCondition];
      params := params + [parcelId.value];
    }
    if Truthy(status) {
      whereConditions := whereConditions + [StatusCondition];
      params := params + [status.value];
    }
    if Truthy(userId) {
      query := JoinQuery;
      params := params + [userId.value];
    } else if |whereConditions| > 0 {
      query := query + Where + Join(whereConditions, And);
    }
    query := query + OrderBy;
    return Statement(query, params);
  }

  /** `GET`: any signed-in user may list; without a session user the reply is 401. */
  method Get(user: Option<Identity>, parcelId: Option<string>, status: Option<string>, userId: Option<string>)
    returns (r: Listing)
    ensures r.Refused? <==> user.None?
    ensures r.Refused? ==> r.reply == Unauthorized
    ensures r.Runs? ==> r.statement == ListQuery(parcelId, status, userId)
  {
    if user.None? {
      return Refused(Unauthorized);
    }
    var s := BuildListQuery(parcelId, status, userId);
    return Runs(s);
  }

  lemma AssignedCountPlain()
    ensures '?' !in AssignedCount
  {
  }

  lemma BaseQueryPlaceholders()
    ensures Count(BaseQuery, '?') == 0
  {
    AssignedCountPlain();
    CountAbsent(BaseQuery, '?');
  }

  lemma JoinQueryPlaceholders()
    ensures Count(JoinQuery, '?') == 1
  {
    AssignedCountPlain();
    CountAround(JoinQueryHead, '?', "\n      ");
  }

  lemma WherePlaceholders()
    ensures Count(Where, '?') == 0
  {
    CountAbsent(Where, '?');
  }

  lemma AndPlaceholders()
    ensures Count(And, '?') == 0
  {
    CountAbsent(And, '?');
  }

  lemma OrderByPlaceholders()
    ensures Count(OrderBy, '?') == 0
  {
    CountAbsent(OrderBy, '?');
  }

  lemma ParcelConditionPlaceholders()
    ensures Count(ParcelCondition, '?') == 1
  {
    CountThenChar("p.parcel_id = ", '?');
  }

  lemma StatusConditionPlaceholders()
    ensures Count(StatusCondition, '?') == 1
  {
    CountThenChar("p.status = ", '?');
  }

  /** No fixed fragment of the SQL holds a placeholder, except the user id's and one per condition. */
  lemma FragmentPlaceholders()
    ensures Count(BaseQuery, '?') == 0 && Count(JoinQuery, '?') == 1
    ensures Count(Where, '?') == 0 && Count(And, '?') == 0 && Count(OrderBy, '?') == 0
    ensures Count(ParcelCondition, '?') == 1 && Count(StatusCondition, '?') == 1
  {
    BaseQueryPlaceholders();
    JoinQueryPlaceholders();
    WherePlaceholders();
    AndPlaceholders();
    OrderByPlaceholders();
    ParcelConditionPlaceholders();
    StatusConditionPlaceholders();
  }

  /** Each condition carries exactly one placeholder. */
  lemma ConditionPlaceholders(parcelId: Option<string>, status: Option<string>)
    ensures CountAll(Conditions(parcelId, status), '?') == |Conditions(parcelId, status)|
  {
    ParcelConditionPlaceholders();
    StatusConditionPlaceholders();
    var first := if Truthy(parcelId) then [ParcelCondition] else [];
    var second := if Truthy(status) then [StatusCondition] else [];
    CountAllAppend(first, second, '?');
  }

  /** The text with the user filter: the join's one placeholder. */
  lemma JoinedListingPlaceholders()
    ensures Count(JoinQuery + OrderBy, '?') == 1
  {
    JoinQueryPlaceholders();
    OrderByPlaceholders();
    CountAppend(JoinQuery, OrderBy, '?');
  }

  /** The text with conditions: one placeholder per condition. */
  lemma FilteredListingPlaceholders(parcelId: Option<string>, status: Option<string>)
    ensures var conds := Conditions(parcelId, status);
            Count(BaseQuery + Where + Join(conds, And) + OrderBy, '?') == |conds|
  {
    var conds := Conditions(parcelId, status);
    BaseQueryPlaceholders();
    WherePlaceholders();
    AndPlaceholders();
    OrderByPlaceholders();
    ConditionPlaceholders(parcelId, status);
    CountJoin(conds, And, '?');
    CountAppend4(BaseQuery, Where, Join(conds, And), OrderBy, '?');
  }

  /** The text without any filter: no placeholder. */
  lemma PlainListingPlaceholders()
    ensures Count(BaseQuery + OrderBy, '?') == 0
  {
    BaseQueryPlaceholders();
    OrderByPlaceholders();
    CountAppend(BaseQuery, OrderBy, '?');
  }

  /** The number of placeholders in the SQL of `ListQuery`. */
  lemma ListQueryPlaceholders(parcelId: Option<string>, status: Option<string>, userId: Option<string>)
    ensures Truthy(userId) ==> Count(ListQuery(parcelId, status, userId).sql, '?') == 1
    ensures !Truthy(userId) ==> Count(ListQuery(parcelId, status, userId).sql, '?') == |Conditions(parcelId, status)|
  {
    if Truthy(userId) {
      JoinedListingPlaceholders();
    } else if Conditions(parcelId, status) != [] {
      FilteredListingPlaceholders(parcelId, status);
    } else {
      PlainListingPlaceholders();
    }
  }

  /** Without a user filter the placeholders and the parameters match one for one. */
  lemma PlaceholdersMatchWithoutUser(parcelId: Option<string>, status: Option<string>)
    ensures var s := ListQuery(parcelId, status, None);
            Count(s.sql, '?') == |s.params|
  {
    ListQueryPlaceholders(parcelId, status, None);
  }

  /**
   * With a user filter and any other filter, the statement has one
   * placeholder but two or three parameters, which a prepared statement
   * refuses: the request fails instead of filtering.
   */
  lemma UserFilterMismatch(parcelId: Option<string>, status: Option<string>, userId: string)
    requires userId != "" && (Truthy(parcelId) || Truthy(status))
    ensures var s := ListQuery(parcelId, status, Some(userId));
            Count(s.sql, '?') == 1 && |s.params| >= 2
  {
    ListQueryPlaceholders(parcelId, status, Some(userId));
  }

  /**
   * The evidently intended listing: the user filter joins the other
   * conditions instead of replacing them, with the user id first among the
   * parameters because its placeholder comes first.
   */
  function ListQueryCorrected(parcelId: Option<string>, status: Option<string>, userId: Option<string>): (s: Statement)
    ensures !Truthy(userId) ==> s == ListQuery(parcelId, status, userId)
    ensures Truthy(userId) ==> s.params == [userId.value] + FilterParams(parcelId, status)
  {
    var conds := Conditions(parcelId, status);
    if Truthy(userId) then
      Statement(if conds == [] then JoinQuery + OrderBy else JoinQuery + And + Join(conds, And) + OrderBy,
                [userId.value] + FilterParams(parcelId, status))
    else ListQuery(parcelId, status, userId)
  }

  /** The corrected user-filtered text: the join's placeholder, then one per condition. */
  lemma CorrectedJoinPlaceholders(parcelId: Option<string>, status: Option<string>)
    ensures var conds := Conditions(parcelId, status);
            Count(JoinQuery + And + Join(conds, And) + OrderBy, '?') == 1 + |conds|
  {
    var conds := Conditions(parcelId, status);
    JoinQueryPlaceholders();
    AndPlaceholders();
    OrderByPlaceholders();
    ConditionPlaceholders(parcelId, status);
    CountJoin(conds, And, '?');
    CountAppend4(JoinQuery, And, Join(conds, And), OrderBy, '?');
  }

  /** In the corrected listing every parameter has its placeholder, whatever the filters. */
  lemma {:induction false} CorrectedPlaceholdersMatch(parcelId: Option<string>, status: Option<string>, userId: Option<string>)
    ensures var s := ListQueryCorrected(parcelId, status, userId);
            Count(s.sql, '?') == |s.params|
  {
    var conds := Conditions(parcelId, status);
    var s := ListQueryCorrected(parcelId, status, userId);
    if !Truthy(userId) {
      ListQueryPlaceholders(parcelId, status, userId);
    } else if conds == [] {
      assert s.sql == JoinQuery + OrderBy;
      JoinedListingPlaceholders();
    } else {
      assert s.sql == JoinQuery + And + Join(conds, And) + OrderBy;
      CorrectedJoinPlaceholders(parcelId, status);
    }
  }

  /** The JSON body of `POST`; `None` is an absent field. */
  datatype NewProperty = NewProperty(
    status: Option<string>,
    parcelId: Option<string>,
    ppin: Option<string>,
    lotSize: Option<string>,
    lotSf: Option<string>,
    lotAcres: Option<string>,
    streetNumber: Option<string>,
    streetName: Option<string>,
    crossStreets: Option<string>,
    city: Option<string>,
    state: Option<string>,
    zip: Option<string>,
    county: Option<string>,
    gpsCoordinates: Option<string>,
    googleMapsLink: Option<string>,
    userId: Option<string>)

  /** A reply, the id it reports, and the two tables after the request. */
  datatype Outcome = Outcome(reply: Reply, propertyId: Option<nat>, properties: seq<PropertyRow>, assignments: seq<AssignmentRow>)

  const FieldsRequired: Reply := Reply(400, "Parcel ID and status are required")
  const ParcelExists: Reply := Reply(409, "Property with this Parcel ID already exists")
  const PropertyCreated: Reply := Reply(201, "Property created successfully")

  predicate ParcelTaken(properties: seq<PropertyRow>, parcelId: string) {
    exists i :: 0 <= i < |properties| && properties[i].parcelId == parcelId
  }

  /** The inserted row: the two required fields, and every empty optional field as null. */
  function RowOf(req: NewProperty, id: nat): (row: PropertyRow)
    requires Truthy(req.status) && Truthy(req.parcelId)
    ensures row.id == id && row.status == req.status.value && row.parcelId == req.parcelId.value
    ensures row.ppin == OrNull(req.ppin) && row.streetNumber == OrNull(req.streetNumber) && row.streetName == OrNull(req.streetName)
    ensures row.city == OrNull(req.city) && row.state == OrNull(req.state) && row.zip == OrNull(req.zip)
    ensures row.lotSize == OrNull(req.lotSize) && row.lotSf == OrNull(req.lotSf) && row.lotAcres == OrNull(req.lotAcres)
    ensures row.crossStreets == OrNull(req.crossStreets) && row.county == OrNull(req.county)
    ensures row.gpsCoordinates == OrNull(req.gpsCoordinates) && row.googleMapsLink == OrNull(req.googleMapsLink)
  {
    PropertyRow(id, req.status.value, req.parcelId.value, OrNull(req.ppin), OrNull(req.lotSize), OrNull(req.lotSf),
                OrNull(req.lotAcres), OrNull(req.streetNumber), OrNull(req.streetName), OrNull(req.crossStreets),
                OrNull(req.city), OrNull(req.state), OrNull(req.zip), OrNull(req.county), OrNull(req.gpsCoordinates),
                OrNull(req.googleMapsLink))
  }

  /**
   * The request's effect: 401 for anyone but an admin, 400 without a parcel
   * id or status, 409 for a parcel id already stored, all with both tables
   * untouched; otherwise one property row is appended and, when a user is
   * named and an id was generated, one assignment row.
   */
  function CreateProperty(user: Option<Identity>, properties: seq<PropertyRow>, assignments: seq<AssignmentRow>,
                          req: NewProperty, insertId: nat): (o: Outcome)
    ensures !IsAdmin(user) ==> o == Outcome(Unauthorized, None, properties, assignments)
    ensures IsAdmin(user) && (!Truthy(req.parcelId) || !Truthy(req.status)) ==>
              o == Outcome(FieldsRequired, None, properties, assignments)
    ensures IsAdmin(user) && Truthy(req.parcelId) && Truthy(req.status) && ParcelTaken(properties, req.parcelId.value) ==>
              o == Outcome(ParcelExists, None, properties, assignments)
    ensures o.reply == PropertyCreated <==>
              IsAdmin(user) && Truthy(req.parcelId) && Truthy(req.status) && !ParcelTaken(properties, req.parcelId.value)
    ensures o.reply == PropertyCreated ==>
              && o.propertyId == Some(insertId)
              && o.properties == properties + [RowOf(req, insertId)]
              && o.assignments == assignments + (if Truthy(req.userId) && insertId != 0 then [AssignmentRow(insertId, req.userId.value)] else [])
    ensures o.reply != PropertyCreated ==> o.properties == properties && o.assignments == assignments
  {
    if !IsAdmin(user) then Outcome(Unauthorized, None, properties, assignments)
    else if !Truthy(req.parcelId) || !Truthy(req.status) then Outcome(FieldsRequired, None, properties, assignments)
    else if ParcelTaken(properties, req.parcelId.value) then Outcome(ParcelExists, None, properties, assignments)
    else
      var newAssignments := if Truthy(req.userId) && insertId != 0 then [AssignmentRow(insertId, req.userId.value)] else [];
      Outcome(PropertyCreated, Some(insertId), properties + [RowOf(req, insertId)], assignments + newAssignments)
  }

  /** `POST`: the checks in order, the property insert, then the optional assignment insert. */
  method Post(user: Option<Identity>, properties: Table<PropertyRow>, assignments: Table<AssignmentRow>,
              req: NewProperty, insertId: nat) returns (reply: Reply, propertyId: Option<nat>)
    modifies properties, assignments
    ensures Outcome(reply, propertyId, properties.rows, assignments.rows) ==
            CreateProperty(user, old(properties.rows), old(assignments.rows), req, insertId)
  {
    if !IsAdmin(user) {
      return Unauthorized, None;
    }
    if !Truthy(req.parcelId) || !Truthy(req.status) {
      return FieldsRequired, None;
    }
    if ParcelTaken(properties.rows, req.parcelId.value) {
      return ParcelExists, None;
    }
    properties.Insert(RowOf(req, insertId));
    if Truthy(req.userId) && insertId != 0 {
      assignments.Insert(AssignmentRow(insertId, req.userId.value));
    }
    return PropertyCreated, Some(insertId);
  }

  /** Parcel ids stay unique through this route: if no two rows share one before, none do after. */
  lemma CreateKeepsParcelsUnique(user: Option<Identity>, properties: seq<PropertyRow>, assignments: seq<AssignmentRow>,
                                 req: NewProperty, insertId: nat)
    requires forall i, j :: 0 <= i < j < |properties| ==> properties[i].parcelId != properties[j].parcelId
    ensures var after := CreateProperty(user, properties, assignments, req, insertId).properties;
            forall i, j :: 0 <= i < j < |after| ==> after[i].parcelId != after[j].parcelId
  {
  }
}
