/** The coupon service: storing coupons, listing the active ones, and the
    validation a client runs before it offers a coupon at checkout. */
module Coupons {
  import opened Base
  import opened Text
  import opened Tables
  import opened Entities
  import opened Store
  import opened Orders

  /** Whether a coupon can be redeemed on `today`: it is active and `today`
      lies in its window, both ends included. */
  predicate Usable(c: Coupon, today: Day)
  {
    c.active && c.validFrom <= today <= c.validUntil
  }

  /** Whether the coupon stored under `id` is the one `code` names, ignoring case. */
  predicate CodeOf(coupons: Table<Coupon>, id: nat, code: string)
  {
    id in coupons.rows && EqualsIgnoreCase(coupons.rows[id].code, code)
  }

  /** `findByCouponCodeIgnoreCase(code)`. */
  function CouponByCode(coupons: Table<Coupon>, code: string): (r: Lookup)
    ensures r.Missing? <==> forall id :: id in coupons.rows ==> !CodeOf(coupons, id, code)
    ensures r.Found? ==> CodeOf(coupons, r.id, code) && forall id :: CodeOf(coupons, id, code) ==> id == r.id
    ensures r.Ambiguous? ==> exists i, j :: CodeOf(coupons, i, code) && CodeOf(coupons, j, code) && i != j
  {
    var r := FindOne(coupons, (c: Coupon) => EqualsIgnoreCase(c.code, code));
    if r.Ambiguous? then
      var i, j :| i in coupons.rows && j in coupons.rows && i != j
                  && EqualsIgnoreCase(coupons.rows[i].code, code) && EqualsIgnoreCase(coupons.rows[j].code, code);
      assert CodeOf(coupons, i, code) && CodeOf(coupons, j, code);
      r
    else r
  }

  /** `validateAndGet(code, orderAmount)` on day `today`: the coupon the code
      names, or the first check it fails. An unknown code, then a coupon that
      is inactive or outside its window, then an amount below the minimum,
      are rejected in that order; a code shared by several coupons makes the
      lookup itself fail. */
  function ValidateAndGet(coupons: Table<Coupon>, code: string, orderAmount: real, today: Day): (r: Result<Coupon>)
    ensures r == Err(InvalidInput("invalid code!")) <==> forall id :: id in coupons.rows ==> !CodeOf(coupons, id, code)
    ensures r.Ok? ==> Usable(r.value, today) && orderAmount >= r.value.minOrderAmt
    ensures r.Ok? ==> exists id :: CodeOf(coupons, id, code) && coupons.rows[id] == r.value
    ensures r.Err? ==> r.error in {InvalidInput("invalid code!"), InvalidInput("coupon is not valid!!"),
                                   InvalidInput("minimum amt not reached!!"), NonUniqueResult}
  {
    var found := CouponByCode(coupons, code);
    if found.Missing? then Err(InvalidInput("invalid code!"))
    else if found.Ambiguous? then Err(NonUniqueResult)
    else
      var coupon := coupons.rows[found.id];
      if !Usable(coupon, today) then Err(InvalidInput("coupon is not valid!!"))
      else if orderAmount < coupon.minOrderAmt then Err(InvalidInput("minimum amt not reached!!"))
      else Ok(coupon)
  }

  /** The coupon stored under `id` is the only one `code` names, it is usable
      on `today` and `orderAmount` reaches its minimum. */
  ghost predicate Redeemable(coupons: Table<Coupon>, code: string, orderAmount: real, today: Day, id: nat)
  {
    && CodeOf(coupons, id, code)
    && (forall other :: CodeOf(coupons, other, code) ==> other == id)
    && Usable(coupons.rows[id], today)
    && orderAmount >= coupons.rows[id].minOrderAmt
  }

  /** Validation succeeds exactly when the code names one redeemable coupon,
      and then it returns that coupon as stored. */
  lemma ValidateAndGetAccepts(coupons: Table<Coupon>, code: string, orderAmount: real, today: Day)
    ensures ValidateAndGet(coupons, code, orderAmount, today).Ok?
            <==> exists id :: Redeemable(coupons, code, orderAmount, today, id)
    ensures forall id :: Redeemable(coupons, code, orderAmount, today, id) ==>
              ValidateAndGet(coupons, code, orderAmount, today) == Ok(coupons.rows[id])
  {
    var found := CouponByCode(coupons, code);
    var r := ValidateAndGet(coupons, code, orderAmount, today);
    if found.Found? {
      if r.Ok? {
        assert Redeemable(coupons, code, orderAmount, today, found.id);
      }
    } else if found.Ambiguous? {
      var i, j :| CodeOf(coupons, i, code) && CodeOf(coupons, j, code) && i != j;
      forall id | Redeemable(coupons, code, orderAmount, today, id) ensures false {
      }
    }
  }

  /** The window and the active flag are checked before the minimum: a coupon
      that is not usable today is reported as not valid, whatever the amount. */
  lemma ValidityCheckedBeforeMinimum(coupons: Table<Coupon>, code: string, orderAmount: real, today: Day, id: nat)
    requires CodeOf(coupons, id, code) && forall other :: CodeOf(coupons, other, code) ==> other == id
    requires !Usable(coupons.rows[id], today)
    ensures ValidateAndGet(coupons, code, orderAmount, today) == Err(InvalidInput("coupon is not valid!!"))
  {
    assert CouponByCode(coupons, code) == Found(id);
  }

  /** A usable coupon whose minimum is not reached is reported as such. */
  lemma MinimumChecked(coupons: Table<Coupon>, code: string, orderAmount: real, today: Day, id: nat)
    requires CodeOf(coupons, id, code) && forall other :: CodeOf(coupons, other, code) ==> other == id
    requires Usable(coupons.rows[id], today) && orderAmount < coupons.rows[id].minOrderAmt
    ensures ValidateAndGet(coupons, code, orderAmount, today) == Err(InvalidInput("minimum amt not reached!!"))
  {
    assert CouponByCode(coupons, code) == Found(id);
  }

  /** A coupon that validates for an amount is discounted by checkout on that total. */
  lemma ValidatedCouponDiscounts(coupons: Table<Coupon>, code: string, total: real, today: Day, id: nat)
    requires Redeemable(coupons, code, total, today, id)
    ensures ValidateAndGet(coupons, code, total, today) == Ok(coupons.rows[id])
    ensures ApplyCoupon(coupons, Some(id), total) == Ok(total - coupons.rows[id].discountValue)
  {
    ValidateAndGetAccepts(coupons, code, total, today);
  }

  /** A coupon that is not usable today is never returned for its own code:
      either it is the one the code names and fails the validity check, or
      the code names several coupons. */
  lemma UnusableCouponRefused(coupons: Table<Coupon>, orderAmount: real, today: Day, id: nat)
    requires id in coupons.rows && !Usable(coupons.rows[id], today)
    ensures ValidateAndGet(coupons, coupons.rows[id].code, orderAmount, today).Err?
  {
    var code := coupons.rows[id].code;
    assert CodeOf(coupons, id, code);
    var found := CouponByCode(coupons, code);
    if found.Found? {
      ValidityCheckedBeforeMinimum(coupons, code, orderAmount, today, id);
    }
  }

  /** Checkout does not repeat the validation: an active coupon whose window
      has passed is refused by validation, yet checkout still takes its
      discount off a total that reaches the minimum. */
  lemma ExpiredCouponStillDiscounts(coupons: Table<Coupon>, total: real, today: Day, id: nat)
    requires id in coupons.rows && coupons.rows[id].active
    requires coupons.rows[id].validUntil < today && total >= coupons.rows[id].minOrderAmt
    ensures ValidateAndGet(coupons, coupons.rows[id].code, total, today).Err?
    ensures ApplyCoupon(coupons, Some(id), total) == Ok(total - coupons.rows[id].discountValue)
  {
    CouponApplies(coupons, total, id);
    UnusableCouponRefused(coupons, total, today, id);
  }

  /** Proof step: a coupon that passes checkout's rule is applied by `ApplyCoupon`. */
  lemma CouponApplies(coupons: Table<Coupon>, total: real, id: nat)
    requires id in coupons.rows && Discounts(coupons.rows[id], total)
    ensures ApplyCoupon(coupons, Some(id), total) == Ok(total - coupons.rows[id].discountValue)
  {
  }

  predicate IsActive(c: Coupon)
  {
    c.active
  }

  /** `getAllActiveCoupons`: the ids of exactly the active coupons, whatever their dates. */
  function ActiveCoupons(coupons: Table<Coupon>): (ids: seq<nat>)
    ensures forall id :: id in ids <==> id in coupons.rows && coupons.rows[id].active
    ensures forall j, k :: 0 <= j < k < |ids| ==> ids[j] < ids[k]
  {
    Select(coupons, IsActive)
  }

  /** Moving a coupon's window does not change the active list. */
  lemma ActiveCouponsIgnoreDates(coupons: Table<Coupon>, id: nat, from: Day, until: Day)
    requires id in coupons.rows
    ensures ActiveCoupons(Put(coupons, id, coupons.rows[id].(validFrom := from, validUntil := until))) == ActiveCoupons(coupons)
  {
    var moved := Put(coupons, id, coupons.rows[id].(validFrom := from, validUntil := until));
    SelectAgree(moved, IsActive, coupons, IsActive);
  }

  /** `addCoupon`: the coupon is stored as active whatever the request said. */
  method AddCoupon(db: Database, dto: Coupon) returns (r: (nat, Coupon))
    requires db.Valid()
    modifies db`coupons
    ensures db.Valid()
    ensures r == (old(db.coupons.next), dto.(active := true))
    ensures db.coupons == Insert(old(db.coupons), dto.(active := true))
  {
    var coupon := dto.(active := true);
    r := (db.coupons.next, coupon);
    db.SetCoupons(Insert(db.coupons, coupon));
  }

  /** A coupon just added is listed among the active ones, next to those that were. */
  lemma AddedCouponIsActive(coupons: Table<Coupon>, dto: Coupon)
    ensures var added := Insert(coupons, dto.(active := true));
            && coupons.next in ActiveCoupons(added)
            && ActiveCoupons(added) == ActiveCoupons(coupons) + [coupons.next]
  {
    var added := Insert(coupons, dto.(active := true));
    SelectInsert(coupons, dto.(active := true), IsActive);
  }

  /** `updateCoupon(id, dto)`: every field of the stored coupon, the active
      flag included, is overwritten by the request; an unknown id fails. */
  method UpdateCoupon(db: Database, id: nat, dto: Coupon) returns (r: Result<Coupon>)
    requires db.Valid()
    modifies db`coupons
    ensures db.Valid()
    ensures id !in old(db.coupons.rows) ==> r == Err(NotFound("invalid couponid!!!")) && db.coupons == old(db.coupons)
    ensures id in old(db.coupons.rows) ==> r == Ok(dto) && db.coupons == Put(old(db.coupons), id, dto)
  {
    if id !in db.coupons.rows {
      return Err(NotFound("invalid couponid!!!"));
    }
    db.SetCoupons(Put(db.coupons, id, dto));
    r := Ok(dto);
  }
}
