/**
 * The rule tables of app.py, in the insertion order Python iterates them.
 * Coordinates are exact decimals (`real`).
 */
module AppTables {
  import opened Catalog
  import opened ServerCommon

  /** The four tables together, as app.py consults them. */
  const App: Tables := Tables(LocationToRegion, RegionKeywords, SpotCoords, RegionCoords)

  /** app.py's region-centre table has the "other" entry it falls back to. */
  lemma AppTablesValid()
    ensures TablesValid(App)
  {
    LookupFound(RegionCoords, Other);
    assert RegionCoords[10].0 == Other;
  }

  /** app.py LOCATION_TO_REGION: (place, region), in table order. */
  const LocationToRegion: seq<(string, string)> := [
    ("北海道", "北海道"), ("札幌", "北海道"), ("函館", "北海道"), ("小樽", "北海道"),
    ("青森", "東北"), ("岩手", "東北"), ("宮城", "東北"), ("秋田", "東北"),
    ("山形", "東北"), ("福島", "東北"), ("仙台", "東北"), ("茨城", "關東"),
    ("栃木", "關東"), ("群馬", "關東"), ("埼玉", "關東"), ("千葉", "關東"),
    ("東京", "關東"), ("神奈川", "關東"), ("市川", "關東"), ("足利", "關東"),
    ("橫濱", "關東"), ("横浜", "關東"), ("箱根", "關東"), ("鎌倉", "關東"),
    ("日光", "關東"), ("草津", "關東"), ("東日本", "關東"), ("新潟", "中部"),
    ("富山", "中部"), ("石川", "中部"), ("福井", "中部"), ("山梨", "中部"),
    ("長野", "中部"), ("岐阜", "中部"), ("靜岡", "中部"), ("静岡", "中部"),
    ("愛知", "中部"), ("信州", "中部"), ("清水", "中部"), ("次郎長", "中部"),
    ("飛驒", "中部"), ("飛騨", "中部"), ("名古屋", "中部"), ("富士山", "中部"),
    ("合掌村", "中部"), ("東海", "中部"), ("三重", "近畿"), ("滋賀", "近畿"),
    ("京都", "近畿"), ("大阪", "近畿"), ("兵庫", "近畿"), ("奈良", "近畿"),
    ("和歌山", "近畿"), ("淡路", "近畿"), ("神戶", "近畿"), ("伏見", "近畿"),
    ("伊勢", "近畿"), ("姬路", "近畿"), ("金閣寺", "近畿"), ("西日本", "近畿"),
    ("鳥取", "中國"), ("島根", "中國"), ("岡山", "中國"), ("廣島", "中國"),
    ("広島", "中國"), ("山口", "中國"), ("宮島", "中國"), ("出雲", "中國"),
    ("德島", "四國"), ("徳島", "四國"), ("香川", "四國"), ("愛媛", "四國"),
    ("高知", "四國"), ("鳴門", "四國"), ("福岡", "九州"), ("佐賀", "九州"),
    ("長崎", "九州"), ("熊本", "九州"), ("大分", "九州"), ("宮崎", "九州"),
    ("鹿兒島", "九州"), ("鹿児島", "九州"), ("奄美", "九州"), ("博多", "九州"),
    ("別府", "九州"), ("沖繩", "沖繩"), ("沖縄", "沖繩"), ("石垣", "沖繩"),
    ("宮古", "沖繩"), ("香港", "海外"), ("澳門", "海外"), ("澳洲", "海外"),
    ("台灣", "海外"), ("韓國", "海外"), ("ハワイ", "海外")
  ]

  /** app.py REGION_COORDS: (region, (lat, lng)). */
  const RegionCoords: seq<(string, (real, real))> := [
    ("北海道", (43.0618, 141.3545)),
    ("東北", (38.2682, 140.8694)),
    ("關東", (35.6895, 139.6917)),
    ("中部", (35.1815, 136.9066)),
    ("近畿", (34.6937, 135.5023)),
    ("中國", (34.3853, 132.4553)),
    ("四國", (34.3428, 134.0466)),
    ("九州", (33.5904, 130.4017)),
    ("沖繩", (26.2124, 127.6809)),
    ("海外", (22.3193, 114.1694)),
    ("其他", (35.0, 139.0)),
    ("空港", (35.5494, 139.7798))
  ]

  /** app.py SPOT_COORDS: (spot, (lat, lng)), in table order. */
  const SpotCoords: seq<(string, (real, real))> := [
    ("伏見", (34.9671, 135.7727)),
    ("稲荷", (34.9671, 135.7727)),
    ("京都", (35.0116, 135.7681)),
    ("清水寺", (34.9949, 135.785)),
    ("八橋", (35.0035, 135.7727)),
    ("奈良", (34.6851, 135.8048)),
    ("鹿", (34.6851, 135.8048)),
    ("大佛", (34.6851, 135.8048)),
    ("神戶", (34.6901, 135.1955)),
    ("通天閣", (34.6525, 135.5063)),
    ("大阪城", (34.6873, 135.5262)),
    ("伊勢", (34.455, 136.7258)),
    ("雷門", (35.7111, 139.7964)),
    ("淺草", (35.7111, 139.7964)),
    ("晴空塔", (35.71, 139.8107)),
    ("東京鐵塔", (35.6586, 139.7454)),
    ("熊貓", (35.7141, 139.7741)),
    ("箱根", (35.2324, 139.1069)),
    ("鎌倉", (35.3191, 139.5505)),
    ("大仏", (35.3167, 139.5361)),
    ("日光", (36.7199, 139.6982)),
    ("草津", (36.6228, 138.5961)),
    ("富士山", (35.3606, 138.7274)),
    ("合掌村", (36.2561, 136.9044)),
    ("白川鄉", (36.2561, 136.9044)),
    ("名古屋", (35.1815, 136.9066)),
    ("太宰府", (33.5215, 130.5349)),
    ("熊本城", (32.8062, 130.7058)),
    ("櫻島", (31.5932, 130.6574)),
    ("石垣", (24.3448, 124.1572)),
    ("水族館", (26.6943, 127.8779)),
    ("函館", (41.7687, 140.7288)),
    ("仙台", (38.2682, 140.8694)),
    ("廣島", (34.3853, 132.4553)),
    ("宮島", (34.296, 132.3199)),
    ("沙丘", (35.5413, 134.2294)),
    ("出雲", (35.402, 132.6855)),
    ("群馬", (36.3895, 139.0634)),
    ("清水", (35.016, 138.4863)),
    ("次郎長", (35.016, 138.4863)),
    ("空港", (35.5494, 139.7798)),
    ("パイロット", (35.5494, 139.7798)),
    ("飛行機", (35.772, 140.3929))
  ]

  /** app.py REGION_KEYWORDS: (region, keywords), in table order. */
  const RegionKeywords: seq<(string, seq<string>)> := [
    ("北海道", [
       "北海道", "札幌", "富良野", "函館", "小樽", "旭山", "薰衣草", "ラベンダー",
       "哈密瓜", "メロン", "玉米", "とうもろこし", "熊", "クマ", "鮭魚", "鮭",
       "狐狸", "キツネ", "丹頂鶴", "流冰", "クリオネ", "成吉思汗", "ジンギスカン", "拉麵",
       "ラーメン", "雪", "長尾山雀", "銀喉長尾山雀", "シマエナガ"]),
    ("東北", [
       "東北", "青森", "岩手", "宮城", "秋田", "山形", "福島", "仙台",
       "蘋果", "りんご", "睡魔", "ねぶた", "赤貝", "赤べこ", "伊達", "政宗",
       "毛豆", "ずんだ", "牛舌", "牛タン", "生剝鬼", "なまはげ", "小芥子", "こけし",
       "白虎隊", "米沢牛", "三陸", "碗子蕎麥", "わんこそば", "櫻桃", "さくらんぼ"]),
    ("關東", [
       "關東", "関東", "東京", "神奈川", "千葉", "埼玉", "茨城", "栃木",
       "群馬", "雷門", "浅草", "淺草", "晴空塔", "スカイツリー", "東京鐵塔", "東京タワー",
       "熊貓", "パンダ", "上野", "澀谷", "渋谷", "八公", "ハチ公", "箱根",
       "大涌谷", "黑蛋", "黒たまご", "寄木細工", "橫濱", "横浜", "中華街", "燒賣",
       "シューマイ", "鎌倉", "大佛", "大仏", "江之島", "草津", "日光", "猴子",
       "猿", "餃子", "納豆", "花生", "落花生"]),
    ("中部", [
       "中部", "愛知", "名古屋", "靜岡", "静岡", "岐阜", "長野", "山梨",
       "新潟", "富山", "石川", "福井", "北陸", "信州", "飛驒", "飛騨",
       "富士山", "ふじさん", "茶", "お茶", "わさび", "山葵", "鰻魚", "うなぎ",
       "金鯱", "しゃちほこ", "炸蝦", "エビフライ", "紅豆吐司", "小倉トースト", "合掌村", "白川鄉",
       "猴子泡湯", "蘋果", "蕎麥", "そば", "越光米", "米", "螃蟹", "カニ",
       "鬱金香", "チューリップ", "雷鳥", "清水", "次郎長"]),
    ("近畿", [
       "近畿", "關西", "関西", "大阪", "京都", "兵庫", "神戶", "神戸",
       "奈良", "滋賀", "和歌山", "三重", "伊勢", "章魚燒", "たこ焼", "通天閣",
       "大阪城", "好燒", "お好み焼き", "虎", "タイガース", "豹紋", "八橋", "八ッ橋",
       "抹茶", "新選組", "舞妓", "伏見稻荷", "伏見稲荷", "狐", "清水寺", "鹿",
       "大佛", "信樂燒", "狸貓", "琵琶湖", "彥根貓", "熊貓", "パンダ", "梅",
       "橘子", "みかん", "珍珠", "真珠"]),
    ("中國", [
       "中國", "中国", "廣島", "広島", "岡山", "鳥取", "島根", "山口",
       "瀨戶內", "瀬戸内", "檸檬", "レモン", "楓葉", "もみじ", "紅葉饅頭", "廣島燒",
       "牡蠣", "桃太郎", "牛仔褲", "麝香葡萄", "沙丘", "梨", "二十世紀梨", "白兔",
       "因幡", "いなばの白うさぎ", "河豚", "ふく", "ふぐ"]),
    ("四國", [
       "四國", "四国", "香川", "德島", "徳島", "愛媛", "高知", "烏龍麵",
       "うどん", "橄欖", "オリーブ", "橘子", "みかん", "伊予", "道後", "少爺",
       "坊っちゃん", "阿波", "阿波舞", "鳴門", "漩渦", "鰹魚", "カツオ", "柚子"]),
    ("九州", [
       "九州", "福岡", "博多", "佐賀", "長崎", "熊本", "大分", "宮崎",
       "鹿兒島", "鹿児島", "明太子", "拉麵", "ラーメン", "草莓", "あまおう", "太宰府",
       "長崎蛋糕", "カステラ", "眼鏡橋", "熊", "くまモン", "熊本城", "別府", "由布院",
       "芒果", "日南", "摩艾", "黑豬", "黒豚", "白熊", "冰", "しろくま",
       "櫻島", "蘿蔔"]),
    ("沖繩", [
       "沖繩", "沖縄", "那霸", "石垣", "宮古", "風獅爺", "シーサー", "扶桑花",
       "ハイビスカス", "鳳梨", "パイン", "紅芋", "苦瓜", "ゴーヤ", "水族館", "鯨鯊",
       "ジンベエザメ", "三線", "水牛", "星砂"]),
    ("海外", [
       "香港", "澳門", "台灣", "澳洲", "ハワイ"])
  ]
}
