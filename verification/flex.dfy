/** `createRestaurantFlexMessage(restaurant, options)`: the LINE Flex bubble announcing a
    draw. The rules are those for the defaults of the displayed fields, and those for which
    footer buttons appear. The theme is passed in, or chosen as `ThemeList[roll]`, `roll`
    standing for `Math.floor(Math.random() * ThemeList.length)`. `encodeURIComponent` is the
    opaque parameter `encode`. The constant parts of the bubble (sizes, icons, fixed labels)
    are not represented. */
module Flex {
  import opened JsText

  datatype Theme = Theme(header: string, body: string, footer: string, primaryBtn: string,
                         secondaryBtn: string, titleText: string, subText: string)

  const MilkTea := Theme("#B08968", "#FAF3E0", "#FAF3E0", "#A3C9A8", "#DDB892", "#6D6875", "#8D8D8D")
  const FreshGreen := Theme("#88AB8E", "#EFF1EC", "#EFF1EC", "#A0C1B8", "#F4D58D", "#335C67", "#7D7D7D")
  const ThemeList: seq<Theme> := [MilkTea, FreshGreen]
  /** Declared beside the list but not part of the random choice. */
  const WineDateTheme := Theme("#8B5E83", "#F4EDF2", "#E6D6DD", "#B67BA4", "#F1A9A0", "#4A2E38", "#998D95")

  const DefaultTitle := "🎊 午餐轉盤結果 🎊"
  const DefaultImage := "https://res.cloudinary.com/dtxauiukh/image/upload/w_1000,ar_1:1,c_fill,g_auto,e_art:hokusai/v1747128923/20240430184650-c091c8f9_jogmqt.jpg"
  const DefaultName := "神秘究極料理"
  const DefaultAddress := "深山秘境，地址不明"
  const DefaultPhone := "無人接聽，考驗默契"
  const AltTextPrefix := "今日午餐："
  const MapsPrefix := "https://www.google.com/maps/search/?api=1&query="
  const MapLabel := "導航去吃！"
  const CallLabel := "馬上CALL！"

  /** The `options` object; a field left undefined takes its default. */
  datatype Options = Options(title: Option<string>, defaultImage: Option<string>, showMapButton: Option<bool>,
                             showPhoneButton: Option<bool>, theme: Option<Theme>)

  /** The fields of `restaurant` the message reads; any of them may be missing. */
  datatype RestaurantView = RestaurantView(name: Option<string>, address: Option<string>, phone: Option<string>,
                                           menu: Option<seq<string>>)

  datatype Style = Primary | Secondary
  datatype Button = Button(style: Style, color: string, text: string, uri: string)
  datatype Layout = Horizontal | Vertical

  /** The footer shows the buttons, or, when there are none, the title as text in the header colour. */
  datatype Footer = Buttons(buttons: seq<Button>) | TitleText(text: string, color: string)

  datatype FlexMessage = FlexMessage(altText: string, title: string, heroImage: string, name: string,
                                     address: string, phone: string, theme: Theme, layout: Layout,
                                     footer: Footer)

  /** A character of the class `[0-9+()\-\s]`. */
  predicate IsPhoneChar(c: char) {
    ('0' <= c <= '9') || c == '+' || c == '(' || c == ')' || c == '-' || IsSpace(c)
  }

  /** `/^[0-9+()\-\s]+$/.test(p)`. */
  predicate PhonePattern(p: string) {
    p != "" && forall k :: 0 <= k < |p| ==> IsPhoneChar(p[k])
  }

  /** The condition for the navigation button: enabled, and an address that is not blank. */
  predicate MapButtonShown(show: bool, address: Option<string>) {
    show && Truthy(address) && Trim(address.value) != ""
  }

  /** The condition for the call button, on the displayed phone (after its default). */
  predicate PhoneButtonShown(show: bool, phone: string) {
    show && phone != "" && PhonePattern(Trim(phone))
  }

  /** `restaurant?.menu?.[0] || defaultImage`. */
  function HeroImage(menu: Option<seq<string>>, fallback: string): (url: string)
    ensures menu.Some? && |menu.value| > 0 && menu.value[0] != "" ==> url == menu.value[0]
    ensures (menu.None? || |menu.value| == 0 || menu.value[0] == "") ==> url == fallback
  {
    if menu.Some? && |menu.value| > 0 then OrDefault(Some(menu.value[0]), fallback) else fallback
  }

  method CreateRestaurantFlexMessage(restaurant: RestaurantView, options: Options, roll: nat, encode: string -> string)
    returns (msg: FlexMessage)
    requires roll < |ThemeList|
    ensures msg.title == Default(options.title, DefaultTitle)
    ensures msg.theme == Default(options.theme, ThemeList[roll])
    ensures msg.name == OrDefault(restaurant.name, DefaultName)
    ensures msg.address == OrDefault(restaurant.address, DefaultAddress)
    ensures msg.phone == OrDefault(restaurant.phone, DefaultPhone)
    ensures msg.heroImage == HeroImage(restaurant.menu, Default(options.defaultImage, DefaultImage))
    ensures msg.altText == AltTextPrefix + msg.name
    ensures var nav := MapButtonShown(Default(options.showMapButton, true), restaurant.address);
      var call := PhoneButtonShown(Default(options.showPhoneButton, true), msg.phone);
      && (msg.layout == Horizontal <==> nav && call)
      && (msg.footer.TitleText? <==> !nav && !call)
      && (msg.footer.TitleText? ==> msg.footer == TitleText(msg.title, msg.theme.header))
      && (msg.footer.Buttons? ==> |msg.footer.buttons| == (if nav then 1 else 0) + (if call then 1 else 0))
      && (nav ==> msg.footer.buttons[0]
                  == Button(Primary, msg.theme.primaryBtn, MapLabel, MapsPrefix + encode(restaurant.address.value)))
      && (call ==> msg.footer.buttons[|msg.footer.buttons| - 1]
                   == Button(Secondary, msg.theme.secondaryBtn, CallLabel, "tel:" + Trim(msg.phone)))
  {
    var theme := Default(options.theme, ThemeList[roll]);
    var title := Default(options.title, DefaultTitle);
    var name := OrDefault(restaurant.name, DefaultName);
    var displayAddress := OrDefault(restaurant.address, DefaultAddress);
    var phone := OrDefault(restaurant.phone, DefaultPhone);
    var image := HeroImage(restaurant.menu, Default(options.defaultImage, DefaultImage));

    var footerButtons: seq<Button> := [];
    if MapButtonShown(Default(options.showMapButton, true), restaurant.address) {
      footerButtons := footerButtons
        + [Button(Primary, theme.primaryBtn, MapLabel, MapsPrefix + encode(restaurant.address.value))];
    }
    if PhoneButtonShown(Default(options.showPhoneButton, true), phone) {
      footerButtons := footerButtons + [Button(Secondary, theme.secondaryBtn, CallLabel, "tel:" + Trim(phone))];
    }

    var layout := if |footerButtons| == 2 then Horizontal else Vertical;
    var footer := if |footerButtons| > 0 then Buttons(footerButtons) else TitleText(title, theme.header);
    msg := FlexMessage(AltTextPrefix + name, title, image, name, displayAddress, phone, theme, layout, footer);
  }

  /** The default phone text is not a phone number: a restaurant without a phone gets no
      call button, whatever the options say. */
  lemma DefaultPhoneNotCallable(show: bool)
    ensures !PhoneButtonShown(show, DefaultPhone)
  {
    assert DefaultPhone[0] == '無';
    NonPhoneStartNotCallable(DefaultPhone, show);
  }

  /** A phone text that starts with a character the pattern refuses gets no call button. */
  lemma NonPhoneStartNotCallable(p: string, show: bool)
    requires p != [] && !IsPhoneChar(p[0])
    ensures !PhoneButtonShown(show, p)
  {
    assert TrimStart(p) == p;
    var r := TrimEnd(p);
    assert Trim(p) == r;
    if r != [] {
      assert r[0] == p[0];
    }
  }

  /** A missing or empty phone displays the default text and so shows no call button. */
  lemma NoPhoneNoCall(phone: Option<string>, show: bool)
    requires !Truthy(phone)
    ensures !PhoneButtonShown(show, OrDefault(phone, DefaultPhone))
  {
    DefaultPhoneNotCallable(show);
  }

  /** An address made only of white space shows no navigation button. */
  lemma {:induction false} BlankAddressNoMap(address: string, show: bool)
    requires AllSpace(address)
    ensures !MapButtonShown(show, Some(address))
  {
    TrimEmptyIffAllSpace(address);
  }

  /** A phone number padded with a space on each side still gets the call button, and the
      `tel:` link uses the number without the spaces. */
  lemma PaddedPhoneCallable(n: string)
    requires PhonePattern(n) && !IsSpace(n[0]) && !IsSpace(n[|n| - 1])
    ensures PhoneButtonShown(true, [' '] + n + [' '])
    ensures Trim([' '] + n + [' ']) == n
  {
    TrimPadded(n);
  }
}
