/** `GET /random-restaurant?groupId=…` (server/routes/randomRestaurantRouter.js): a draw from
    the group's current office with the route's own copy of `drawRestaurant`, which, like the
    chat handlers' copy, ignores `isActiveInOffice`. */
module RandomRouter {
  import opened JsText
  import opened Schema
  import opened Draw
  import Commands

  /** The bodies of the route's answers. */
  datatype DrawResponse =
    | Picked(name: string)
    | MissingGroupId
    | NotConfigured
    | NothingToDraw

  /** An answer: its HTTP status and its body. */
  datatype Response = Response(status: nat, body: DrawResponse)

  function GetRandomRestaurant(groupId: Option<string>, settings: map<string, GroupSetting>, bindings: seq<Binding>,
                               restaurants: seq<Restaurant>, sample: nat): (resp: Response)
    ensures resp.status == 200 || resp.status == 400
    ensures resp.status == 200 <==> resp.body.Picked?
    ensures var r := resp.body;
      && (r == MissingGroupId <==> !Truthy(groupId))
      && (r == NotConfigured <==> Truthy(groupId) && groupId.value !in settings)
      && (r.Picked? ==>
           && Truthy(groupId) && groupId.value in settings
           && exists x :: x in restaurants && x.name == r.name
                          && Drawable(bindings, groupId.value, settings[groupId.value].currentOffice, Legacy, x))
      && (r == NothingToDraw <==>
           && Truthy(groupId) && groupId.value in settings
           && !exists x :: x in restaurants
                           && Drawable(bindings, groupId.value, settings[groupId.value].currentOffice, Legacy, x))
  {
    if !Truthy(groupId) then Response(400, MissingGroupId)
    else
      var g := groupId.value;
      if g !in settings then Response(400, NotConfigured)
      else
        var result := DrawRestaurant(bindings, restaurants, g, settings[g].currentOffice, Legacy, sample);
        if result.Some? then Response(200, Picked(result.value.name)) else Response(400, NothingToDraw)
  }

  /** For the same sample, the route and the chat draw command pick the same restaurant and
      fail in the same cases. */
  lemma AgreesWithChatDraw(g: string, settings: map<string, GroupSetting>, bindings: seq<Binding>,
                           restaurants: seq<Restaurant>, sample: nat)
    requires g != ""
    ensures var api := GetRandomRestaurant(Some(g), settings, bindings, restaurants, sample).body;
      var chat := Commands.EatReply(settings, bindings, restaurants, g, sample);
      && (api.Picked? <==> chat.Drawn?)
      && (api.Picked? ==> api.name == chat.name)
      && (api == NotConfigured <==> chat == Commands.NotConfigured)
      && (api == NothingToDraw <==> chat == Commands.NothingToDraw)
  {
  }

  /** A restaurant paused in its office is still returned by the route. */
  lemma PausedBindingServed(sample: nat)
    ensures var r := Restaurant(1, None, "Noodles", [], "", "", [], true);
      var bs := [Binding(7, "G", "HQ", 1, false, None)];
      var settings := map["G" := GroupSetting("G", false, "HQ", ["HQ"])];
      GetRandomRestaurant(Some("G"), settings, bs, [r], sample) == Response(200, Picked("Noodles"))
  {
    var r := Restaurant(1, None, "Noodles", [], "", "", [], true);
    var bs := [Binding(7, "G", "HQ", 1, false, None)];
    LegacyDrawsPausedBinding(bs, [r], "G", "HQ", r, sample);
  }
}
