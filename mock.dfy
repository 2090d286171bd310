/** The fixture data the application falls back to when no database is configured. */
module Mock {
  import opened Types

  const MockUsers: seq<User> := [
    User("1", "ウグイスバレー", "原田", "0000", "#ffffff"),
    User("2", "ニンゲンビレッジ", "矢橋", "0000", "#000000"),
    User("3", "チェンジドライバ", "岡本", "0000", "#ff0000"),
    User("4", "エセドバイオー", "安井", "0000", "#0000ff"),
    User("5", "サイレントイナバ", "稲葉", "0000", "#ffff00"),
    User("6", "ブームオレタ", "櫛部", "0000", "#ffff00"),
    User("7", "ツチサカ", "土坂", "0000", "#008000"),
    User("8", "イトウ", "伊藤", "0000", "#008000"),
    User("9", "ハンケン", "冨田", "0000", "#ffa500"),
    User("10", "アサミハズバンド", "大橋", "0000", "#ffa500"),
    User("11", "オオクボハグルマ", "大久保", "0000", "#ffc0cb"),
    User("12", "キンパチティーチャ", "佐久間", "0000", "#ffc0cb")
  ]

  const MockRaces: seq<Race> := [
    Race("t01", Tokyo, 1), Race("t02", Tokyo, 2), Race("t03", Tokyo, 3), Race("t04", Tokyo, 4),
    Race("t05", Tokyo, 5), Race("t06", Tokyo, 6), Race("t07", Tokyo, 7), Race("t08", Tokyo, 8),
    Race("t09", Tokyo, 9), Race("t10", Tokyo, 10), Race("t11", Tokyo, 11), Race("t12", Tokyo, 12),
    Race("h01", Hanshin, 1), Race("h02", Hanshin, 2), Race("h03", Hanshin, 3), Race("h04", Hanshin, 4),
    Race("h05", Hanshin, 5), Race("h06", Hanshin, 6), Race("h07", Hanshin, 7), Race("h08", Hanshin, 8),
    Race("h09", Hanshin, 9), Race("h10", Hanshin, 10), Race("h11", Hanshin, 11), Race("h12", Hanshin, 12),
    Race("k01", Kokura, 1), Race("k02", Kokura, 2), Race("k03", Kokura, 3), Race("k04", Kokura, 4),
    Race("k05", Kokura, 5), Race("k06", Kokura, 6), Race("k07", Kokura, 7), Race("k08", Kokura, 8),
    Race("k09", Kokura, 9), Race("k10", Kokura, 10), Race("k11", Kokura, 11), Race("k12", Kokura, 12)
  ]

  /** Every fixture bet is stamped with the moment the fixture module is loaded, `loadTime`. */
  function MockBets(loadTime: int): seq<Bet> {
    [
      Bet("b1", "3", "t11", 10000, 20530, loadTime),
      Bet("b2", "1", "t11", 10000, 11900, loadTime),
      Bet("b3", "2", "t11", 10000, 3140, loadTime),
      Bet("b4", "10", "k11", 10000, 100, loadTime),
      Bet("b5", "12", "h10", 10000, 2420, loadTime)
    ]
  }
}
