/** The `/group-restaurant` routes (server/routes/groupRestaurantRouter.js) on the binding
    collection. Each route's effect is a relation between the documents before and after it
    and the status it sends; the route methods promise that relation. */
module BindingRouter {
  import opened JsText
  import opened Schema
  import opened Collections

  /** `GET /:groupId`: the group's bindings, in collection order. */
  function GroupBindings(docs: seq<Binding>, groupId: string): (bs: seq<Binding>)
    ensures |bs| <= |docs|
    ensures forall b :: b in bs <==> b in docs && b.groupId == groupId
    ensures forall b :: multiset(bs)[b] == if b.groupId == groupId then multiset(docs)[b] else 0
  {
    if docs == [] then []
    else
      assert docs == [docs[0]] + docs[1..];
      var rest := GroupBindings(docs[1..], groupId);
      if docs[0].groupId == groupId then [docs[0]] + rest else rest
  }

  /** The body of `POST /`: a field left out is `None` (`restaurantId` also when empty). */
  datatype NewBindingBody = NewBindingBody(groupId: Option<string>, office: Option<string>,
                                           restaurantId: Option<RestaurantId>, isActiveInOffice: Option<bool>,
                                           note: Option<string>)

  /** `POST /`: 400 when a required field is missing or the triple is already bound;
      otherwise exactly one binding is added, `isActiveInOffice` defaulting to true. */
  predicate PostEffect(docs: seq<Binding>, nextId: nat, body: NewBindingBody, status: nat, docs': seq<Binding>) {
    if !Truthy(body.groupId) || !Truthy(body.office) || body.restaurantId.None? then status == 400 && docs' == docs
    else if TriplePos(docs, body.groupId.value, body.office.value, body.restaurantId.value) < |docs| then
      status == 400 && docs' == docs
    else
      status == 201 && docs' == docs + [Binding(nextId, body.groupId.value, body.office.value, body.restaurantId.value,
                                                Default(body.isActiveInOffice, true), body.note)]
  }

  method PostBinding(bindings: BindingCollection, body: NewBindingBody) returns (status: nat)
    requires bindings.Valid()
    modifies bindings
    ensures bindings.Valid()
    ensures PostEffect(old(bindings.docs), old(bindings.nextId), body, status, bindings.docs)
  {
    if !Truthy(body.groupId) || !Truthy(body.office) || body.restaurantId.None? {
      return 400;
    }
    if TriplePos(bindings.docs, body.groupId.value, body.office.value, body.restaurantId.value) < |bindings.docs| {
      return 400;
    }
    var created := bindings.Create(body.groupId.value, body.office.value, body.restaurantId,
                                   Some(Default(body.isActiveInOffice, true)), body.note);
    assert created.Written?;
    status := 201;
  }

  /** A successful POST binds the triple, and posting the same body again is refused and
      changes nothing. */
  lemma PostTwice(docs: seq<Binding>, nextId: nat, body: NewBindingBody, status1: nat, docs1: seq<Binding>,
                  status2: nat, docs2: seq<Binding>)
    requires PostEffect(docs, nextId, body, status1, docs1)
    requires PostEffect(docs1, nextId + 1, body, status2, docs2)
    requires status1 == 201
    ensures |docs1| == |docs| + 1 && docs1[|docs|].isActiveInOffice == Default(body.isActiveInOffice, true)
    ensures status2 == 400 && docs2 == docs1
  {
    var b := docs1[|docs|];
    assert TriplePos(docs1, b.groupId, b.office, b.restaurantId) <= |docs|;
  }

  /** A POST without one of the three required fields is refused, whatever else it holds. */
  lemma PostNeedsTriple(docs: seq<Binding>, nextId: nat, body: NewBindingBody, status: nat, docs': seq<Binding>)
    requires PostEffect(docs, nextId, body, status, docs')
    ensures status == 201 <==> |docs'| == |docs| + 1
    ensures status == 201 ==> Truthy(body.groupId) && Truthy(body.office) && body.restaurantId.Some?
    ensures status != 201 ==> status == 400 && docs' == docs
  {
  }

  /** The body of `PUT /:id`: only the fields that are present are set. */
  datatype BindingPatch = BindingPatch(office: Option<string>, isActiveInOffice: Option<bool>, note: Option<string>)

  /** `{ $set: updateFields }` applied to one binding. */
  function Patched(b: Binding, p: BindingPatch): (b': Binding)
    ensures b'.id == b.id && b'.groupId == b.groupId && b'.restaurantId == b.restaurantId
    ensures p.office.Some? ==> b'.office == p.office.value
    ensures p.office.None? ==> b'.office == b.office
    ensures p.isActiveInOffice.Some? ==> b'.isActiveInOffice == p.isActiveInOffice.value
    ensures p.isActiveInOffice.None? ==> b'.isActiveInOffice == b.isActiveInOffice
    ensures p.note.Some? ==> b'.note == p.note
    ensures p.note.None? ==> b'.note == b.note
  {
    b.(office := Default(p.office, b.office),
       isActiveInOffice := Default(p.isActiveInOffice, b.isActiveInOffice),
       note := if p.note.Some? then p.note else b.note)
  }

  /** Applying the same patch twice is applying it once; an empty patch changes nothing. */
  lemma PatchIdempotent(b: Binding, p: BindingPatch)
    ensures Patched(Patched(b, p), p) == Patched(b, p)
    ensures Patched(b, BindingPatch(None, None, None)) == b
  {
  }

  /** `PUT /:id` as written. A missing binding, or a group without settings, makes a null
      dereference: 500 and no write. When `office` is not among the group's offices (an
      absent `office` never is), 400 is sent but the handler goes on and the update is
      still written. A clash with the unique triple index throws: 500 unless the 400 was
      already sent. */
  predicate PutEffect(docs: seq<Binding>, settings: map<string, GroupSetting>, id: BindingId, patch: BindingPatch,
                      status: nat, docs': seq<Binding>) {
    var k := BindingPos(docs, id);
    if k == |docs| || docs[k].groupId !in settings then status == 500 && docs' == docs
    else
      var refused := patch.office.None? || patch.office.value !in settings[docs[k].groupId].officeOption;
      var b := Patched(docs[k], patch);
      if !BindingKeyFree(docs, b, k) then docs' == docs && status == (if refused then 400 else 500)
      else docs' == docs[k := b] && status == (if refused then 400 else 200)
  }

  method PutBinding(bindings: BindingCollection, settings: SettingCollection, id: BindingId, patch: BindingPatch)
    returns (status: nat)
    requires bindings.Valid() && settings.Valid()
    modifies bindings
    ensures bindings.Valid()
    ensures PutEffect(old(bindings.docs), settings.byGroup, id, patch, status, bindings.docs)
  {
    var k := BindingPos(bindings.docs, id);
    if k == |bindings.docs| || bindings.docs[k].groupId !in settings.byGroup {
      return 500;
    }
    var setting := settings.byGroup[bindings.docs[k].groupId];
    var sent: Option<nat> := None;
    if patch.office.None? || patch.office.value !in setting.officeOption {
      sent := Some(400);
    }
    var ok := bindings.Replace(k, Patched(bindings.docs[k], patch));
    if !ok {
      status := Default(sent, 500);
    } else {
      status := Default(sent, 200);
    }
  }

  /** The PUT the client store sends to switch a binding on or off carries no office: it is
      answered 400, and the switch is written all the same. */
  lemma ToggleRefusedButWritten(docs: seq<Binding>, settings: map<string, GroupSetting>, k: nat, active: bool,
                                status: nat, docs': seq<Binding>)
    requires BindingIndex(docs) && k < |docs| && docs[k].groupId in settings
    requires PutEffect(docs, settings, docs[k].id, BindingPatch(None, Some(active), None), status, docs')
    ensures status == 400
    ensures docs' == docs[k := docs[k].(isActiveInOffice := active)]
  {
    assert BindingPos(docs, docs[k].id) == k;
    var b := Patched(docs[k], BindingPatch(None, Some(active), None));
    assert BindingKeyFree(docs, b, k) by {
      forall j | 0 <= j < |docs| && j != k ensures !SameBindingKey(docs[j], b) {
        if j < k {
          assert BindingsApart(docs[j], docs[k]);
        } else {
          assert BindingsApart(docs[k], docs[j]);
        }
      }
    }
  }

  /** A PUT on an id that no binding has is answered 500: the 404 branch is never reached. */
  lemma PutMissingIdFails(docs: seq<Binding>, settings: map<string, GroupSetting>, id: BindingId, patch: BindingPatch,
                          status: nat, docs': seq<Binding>)
    requires forall b :: b in docs ==> b.id != id
    requires PutEffect(docs, settings, id, patch, status, docs')
    ensures status == 500 && docs' == docs
  {
  }

  /** PUT as its responses describe it: 404 for a missing binding, the office checked only
      when one is given, and a refusal that writes nothing. */
  predicate IntendedPutEffect(docs: seq<Binding>, settings: map<string, GroupSetting>, id: BindingId,
                              patch: BindingPatch, status: nat, docs': seq<Binding>) {
    var k := BindingPos(docs, id);
    if k == |docs| then status == 404 && docs' == docs
    else if docs[k].groupId !in settings then status == 500 && docs' == docs
    else if patch.office.Some? && patch.office.value !in settings[docs[k].groupId].officeOption then
      status == 400 && docs' == docs
    else
      var b := Patched(docs[k], patch);
      if !BindingKeyFree(docs, b, k) then status == 500 && docs' == docs
      else status == 200 && docs' == docs[k := b]
  }

  method PutBindingIntended(bindings: BindingCollection, settings: SettingCollection, id: BindingId,
                            patch: BindingPatch)
    returns (status: nat)
    requires bindings.Valid() && settings.Valid()
    modifies bindings
    ensures bindings.Valid()
    ensures IntendedPutEffect(old(bindings.docs), settings.byGroup, id, patch, status, bindings.docs)
  {
    var k := BindingPos(bindings.docs, id);
    if k == |bindings.docs| {
      return 404;
    }
    if bindings.docs[k].groupId !in settings.byGroup {
      return 500;
    }
    var setting := settings.byGroup[bindings.docs[k].groupId];
    if patch.office.Some? && patch.office.value !in setting.officeOption {
      return 400;
    }
    var ok := bindings.Replace(k, Patched(bindings.docs[k], patch));
    status := if ok then 200 else 500;
  }

  /** Under the intended PUT, every binding keeps an office the group lists, unless the patch
      leaves the office alone; a refusal writes nothing; and a write is a 200. */
  lemma IntendedPutKeepsOffices(docs: seq<Binding>, settings: map<string, GroupSetting>, id: BindingId,
                                patch: BindingPatch, status: nat, docs': seq<Binding>)
    requires IntendedPutEffect(docs, settings, id, patch, status, docs')
    ensures status != 200 ==> docs' == docs
    ensures status == 200 ==>
      && |docs'| == |docs|
      && exists k ::
           && 0 <= k < |docs| && docs[k].id == id && docs' == docs[k := Patched(docs[k], patch)]
           && docs[k].groupId in settings
           && (patch.office.Some? ==> docs'[k].office in settings[docs[k].groupId].officeOption)
  {
  }

  /** `DELETE /:id`: 404 and nothing removed for a missing id; otherwise exactly that binding
      goes and the others keep their order. */
  predicate DeleteEffect(docs: seq<Binding>, id: BindingId, status: nat, docs': seq<Binding>) {
    var k := BindingPos(docs, id);
    if k == |docs| then status == 404 && docs' == docs
    else status == 200 && docs' == docs[..k] + docs[k + 1..]
  }

  method DeleteBinding(bindings: BindingCollection, id: BindingId) returns (status: nat)
    requires bindings.Valid()
    modifies bindings
    ensures bindings.Valid()
    ensures DeleteEffect(old(bindings.docs), id, status, bindings.docs)
  {
    var k := BindingPos(bindings.docs, id);
    if k == |bindings.docs| {
      return 404;
    }
    bindings.RemoveAt(k);
    status := 200;
  }

  /** After a successful DELETE no binding has the id, and every other binding remains. */
  lemma DeleteRemovesId(docs: seq<Binding>, id: BindingId, status: nat, docs': seq<Binding>)
    requires BindingIndex(docs)
    requires DeleteEffect(docs, id, status, docs')
    ensures status == 200 ==> |docs'| + 1 == |docs| && forall b :: b in docs' ==> b.id != id
    ensures forall b :: b in docs && b.id != id ==> b in docs'
    ensures status == 404 <==> forall b :: b in docs ==> b.id != id
  {
    var k := BindingPos(docs, id);
    if k < |docs| {
      forall b | b in docs' ensures b.id != id {
        var j :| 0 <= j < |docs'| && docs'[j] == b;
        if j < k {
          assert docs'[j] == docs[j];
          assert BindingsApart(docs[j], docs[k]);
        } else {
          assert docs'[j] == docs[j + 1];
          assert BindingsApart(docs[k], docs[j + 1]);
        }
      }
      forall b | b in docs && b.id != id ensures b in docs' {
        var j :| 0 <= j < |docs| && docs[j] == b;
        if j < k {
          assert docs'[j] == b;
        } else {
          assert j != k;
          assert docs'[j - 1] == b;
        }
      }
    }
  }
}
