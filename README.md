# CardGame core in Dafny

A model of the game-state core of CardGame, a turn-based isometric card game
written in Rust on macroquad. The model covers:

- **The hand** (`Hands`): an ordered row of displayed cards, with a hovered
  and a selected index of type `i8`, where `-1` means none. It covers
  selection toggling, playing the selected creature onto the world's roster,
  and the row layout that sets each card's rectangle and hover bound. It
  also covers the hovered index that `display_hand` derives from the card
  scales. `Hand` is a class whose methods update its fields. Each method is
  specified against pure functions (`Relayout`, `LaidOut`, `Removed`,
  `Rescaled`, `LastRaised`, `Toggled`), and lemmas prove the properties of
  those functions.
- **The isometric transform** (`GameWorld`, `Isometric`): `map_to_world` and
  `world_to_map` with the fixed 32x32 tile (`GameWorld`), and the same pair
  over any tile size (`Isometric`). Both are built on the 2x2 matrix
  operations of glam (`Vectors`). `GameWorld` also models the cell test that
  gates a play.
- **Life and effects** (`Life`, `Effects`): the clamped heal and the
  unclamped damage of the `HasLife` capability, applied to a mutable target,
  and the dispatch of `affect_target` on the effect type.
- **The player** (`Players`): `Player::new`, `playCard` and `updateHp`, on
  a deck made of an unplayed pile and a played pile.
- **Tile names** (`TileNames`): `format_digit` of `src/main.rs`, which
  zero-pads the index in each tile texture name.

`f32` values are modelled as exact `real`s. Rust machine integers are
bounded subset types, and their casts are written out in `Numeric`:
`as i8` wraps, `u32 as i32` reinterprets the bits, and a float cast to `i32`
truncates toward zero and then saturates. A debug-build overflow panic
becomes a `requires`. A `todo!()` becomes an explicit outcome.

The viewport size, which the source reads from the window, is a parameter
(`vw`, `vh`). So are the scales each card reaches through its hover
animation, and the cursor position once the camera has converted it to
world coordinates.

Some behaviours of the code are stated as proved facts:

- **The hand's recorded `screen_size` is never written.** As a result every
  layout with a non-zero viewport recomputes.
- **A card's x comes from its previous width.** The first layout after
  `add_card` therefore stacks the new cards at x = 0. The row settles at the
  second layout.
- **On a settled row, each hover zone is the first 0.3 of its card.** The
  zone ends exactly where the next card starts; it does not extend past the
  card's own right edge.
- **`play_card` leaves `hovered_card` as it was.** When the hovered index was
  the last position of the row, after a play it names a position past the
  end (`StaleHoverAfterPlay`); otherwise it may name a different card than
  before.
- **`world_to_map` does not undo the half-tile offset that `map_to_world`
  adds.** The comments of src/game/world.rs present the two functions as the
  two directions of one transform (world to map position, map to world
  position). Yet the round trip moves every cell with x > 0 one step left,
  so the two are not inverse to each other (`RoundTripIdentityIff`).

## Model

| member | source | states |
|---|---|---|
| Hands.Hand.constructor | src/game/hand.rs:36-46 | an empty hand with nothing hovered or selected, storing the given hovered scale and card dimensions; recorded screen size 0 x 0 |
| Hands.Hand.AddCard | src/game/hand.rs:48-61 | exactly one card at rest is appended at the end, with a zero rectangle and hover bound 0; earlier cards, both indices and the other fields are unchanged |
| Hands.Hand.CardIsHovered | src/game/hand.rs:63-66 | true iff the hovered index is not -1; after `DisplayHand` on up to 128 cards, iff some card is raised (`HoveredIndexInRange`) |
| Hands.Hand.CardIsSelected | src/game/hand.rs:68-71 | true iff the selected index is not -1; `SelectHoveredCard` states when it holds afterwards |
| Hands.Hand.SelectHoveredCard | src/game/hand.rs:76-82 | the selection becomes -1 when the hovered card is the selected one, otherwise the hovered index; a card is then selected iff one was hovered and it differed from the old selection; the cards and the hovered index are untouched; indices stay in range |
| Hands.SelectTwice | src/game/hand.rs:76-82 | two selections with the same hovered card clear the selection unless it started on that card; with nothing hovered a selection clears |
| Hands.Hand.PlayCard | src/game/hand.rs:93-117 | requires a selected card in the row (the `assert!` and `Vec::remove`); a creature leaves the row, is appended with the position to the roster, the selection becomes -1 and the rest is laid out again; an effect card is reported unsupported and changes nothing; the hovered index is never updated |
| Hands.PlayRemovesSelected | src/game/hand.rs:101-112 | after a play the row is one shorter and holds the other cards in their old order |
| Hands.Hand.UpdateCardToScreen | src/game/hand.rs:119-148 | when the recorded screen size differs from the viewport, the dimensions become (0.2 vw, 0.3 vh) and every card is placed as `LaidOut` says; otherwise nothing changes; the recorded screen size is never written |
| Hands.PlacedLast | src/game/hand.rs:141-146 | the last card is placed like the others except that its hover bound is its right edge |
| Hands.LayoutKeepsCards | src/game/hand.rs:131-146 | a layout keeps the number of cards, each card and each scale in place |
| Hands.FirstLayoutStacksNewCards | src/game/hand.rs:133 | cards that still have width 0 are all placed at x = 0 |
| Hands.SecondLayoutSettles | src/game/hand.rs:128-139 | from the second layout at one viewport on, card k (from 1) sits at x = 0.3 (0.2 vw) k, y = 0.9 vh, size (0.2 vw, 0.3 vh), and a further layout changes nothing |
| Hands.SettledPlacement | src/game/hand.rs:133-137 | a card that already has the new width is placed at x = 0.3 (0.2 vw) k with hover bound 0.3 (0.2 vw) (k + 1) |
| Hands.HoverZonesOfSettledLayout | src/game/hand.rs:137-146 | on a settled row each hover bound equals the next card's x, that is x + 0.3 w; the last one is x + w; zones of different cards do not overlap |
| Hands.ZoneMeetsNextCard | src/game/hand.rs:133-137 | on a settled row a card's hover bound is its x plus 0.3 of its width, which is the next card's x |
| Hands.ZoneBeforeCard | src/game/hand.rs:133-137 | on a settled row a card's hover bound is at or before the x of every later card |
| Hands.LastRaised | src/game/hand.rs:159-167 | the index found is -1 or a card with scale above 1, and no later card has scale above 1 |
| Hands.Hand.DisplayHand | src/game/hand.rs:150-168 | the row is laid out and takes the given scales; the hovered index is the last card with scale above 1 (or -1), through `as i8`, and exactly that index for up to 128 cards |
| Hands.HoveredIndexInRange | src/game/hand.rs:19-22 | for up to 128 cards the derived hovered index is -1 or a position of the row, and is not -1 iff some card is raised |
| Numeric.WrapI8 | src/game/hand.rs:164 | `as i8` keeps in-range values and otherwise differs from the input by a multiple of 256 |
| GameWorld.MapToWorld | src/game/world.rs:92-100 | the basis times the cell plus the half-tile offset; its meaning is `MapToWorldClosedForm` and `CellSteps` |
| GameWorld.WorldToMap | src/game/world.rs:82-88 | the inverse basis applied, then `as_ivec2`; its meaning is `WorldToMapClosedForm`, and `LinearPartInverted` and `RoundTrip` relate it to `MapToWorld` |
| GameWorld.CellWithinMap | src/game/world.rs:41 | the bounds test of `cursor_within_map` on a cell, with `width as i32` and `heigth as i32`; its meaning is `CellWithinMapBounds` and `OversizedMapAcceptsNothing` |
| GameWorld.CursorWithinMap | src/game/world.rs:37-42 | the bounds test applied to `world_to_map` of the cursor; `CursorOnTileCentre` gives its meaning |
| GameWorld.CursorOnTileCentre | src/game/world.rs:37-42 | a cursor on the centre of a non-negative cell's tile is within the map iff x <= width and y <= heigth |
| GameWorld.MapToWorldClosedForm | src/game/world.rs:92-100 | map_to_world((x, y)) = (16x - 16y - 16, 8x + 8y) |
| GameWorld.CellSteps | src/game/world.rs:92-100 | one cell along x moves the world position by (16, 8), along y by (-16, 8) |
| GameWorld.WorldToMapClosedForm | src/game/world.rs:82-88 | world_to_map((wx, wy)) is the `i32` cast of (wx/32 + wy/16, -wx/32 + wy/16) |
| GameWorld.LinearPartInverted | src/game/world.rs:82-99 | world_to_map((16x - 16y, 8x + 8y)) = (x, y) for every `i32` cell |
| GameWorld.RoundTrip | src/game/world.rs:82-100 | world_to_map(map_to_world(c)) = (trunc(x - 1/2), trunc(y + 1/2)) = (x - 1 if x > 0 else x, y + 1 if y < 0 else y) |
| GameWorld.RoundTripIdentityIff | src/game/world.rs:82-100 | the round trip gives the cell back iff x <= 0 and y >= 0 |
| GameWorld.RoundTripNonNegative | src/game/world.rs:82-100 | on non-negative cells the round trip is (max(x - 1, 0), y) |
| GameWorld.TileCentrePicksCell | src/game/world.rs:82-100 | the point (16, 8) past map_to_world(c) maps back to c for every non-negative cell |
| GameWorld.CoincidesWithIsometric | src/game/isometric_manipulation.rs:9-27 | with a 32x32 tile the generic transforms equal the world ones |
| GameWorld.CellWithinMapBounds | src/game/world.rs:37-42 | for sizes within `i32`, a cell passes iff 0 <= x <= width and 0 <= y <= heigth; (width, heigth) passes, width + 1 and heigth + 1 fail |
| GameWorld.OversizedMapAcceptsNothing | src/game/world.rs:41 | a size above `i32::MAX` turns negative through `as i32` and no cell passes |
| Numeric.U32AsI32 | src/game/world.rs:41 | `u32 as i32` keeps values up to `i32::MAX` and maps larger ones to the negative value 2^32 below |
| Numeric.HalveTowardZero | src/game/world.rs:97 | integer division by 2 rounds toward zero for both signs |
| Numeric.Trunc | src/game/world.rs:87 | truncation toward zero brackets the real from below (non-negative) or above (negative) |
| Numeric.FloatToI32 | src/game/world.rs:87 | the float-to-`i32` cast is truncation within range and saturates at both ends |
| Numeric.FloatToI32OfInt | src/game/world.rs:87 | the cast gives back every `i32` integer |
| Vectors.AsIVec2 | src/game/world.rs:87 | `as_ivec2` yields a vector with both coordinates within `i32` |
| Vectors.InverseUndoes | src/game/isometric_manipulation.rs:12 | the glam inverse of a non-singular matrix undoes it on every vector |
| Isometric.BasisDeterminant | src/game/isometric_manipulation.rs:10-12 | the basis determinant is tw th / 4; it is non-zero iff both tile sides are |
| Isometric.InverseBasisEntries | src/game/isometric_manipulation.rs:10-12 | the inverse basis has columns (1/tw, -1/tw) and (2/th, 2/th) |
| Isometric.MapToWorld | src/game/isometric_manipulation.rs:19-27 | the basis for tile (tw, th) times the cell, plus the offset (-tw / 2, 0); its meaning is `Isometric.MapToWorldClosedForm` |
| Isometric.WorldToMap | src/game/isometric_manipulation.rs:9-15 | the inverse basis applied, then `as_ivec2`; its meaning is `Isometric.WorldToMapClosedForm`, and `LinearRoundTrip` relates it to `Isometric.MapToWorld` |
| Isometric.MapToWorldClosedForm | src/game/isometric_manipulation.rs:19-27 | map_to_world((x, y)) = ((x - y) tw / 2 + (-tw div 2), (x + y) th / 4) with the offset truncated toward zero |
| Isometric.WorldToMapClosedForm | src/game/isometric_manipulation.rs:9-15 | world_to_map((wx, wy)) is the `i32` cast of (wx/tw + 2wy/th, -wx/tw + 2wy/th) |
| Isometric.LinearRoundTrip | src/game/isometric_manipulation.rs:9-23 | world_to_map inverts the linear part of map_to_world on every `i32` cell, for every non-degenerate tile |
| Numeric.Min | src/game/life.rs:11 | `cmp::min` is the smaller argument |
| Life.Healed | src/game/life.rs:10-13 | the healed life is the maximum or the full sum, and never above either |
| Life.Damaged | src/game/life.rs:15-17 | the damaged life plus the damage is the old life |
| Life.LifeHolder.SetLife | src/game/life.rs:8 | stores the value as the current life and leaves the maximum alone |
| Life.LifeHolder.Heal | src/game/life.rs:10-13 | requires no `u32` overflow; one `set_life` stores min(max, current + delta); a life within the maximum does not go down and stays within it |
| Life.LifeHolder.Damage | src/game/life.rs:15-17 | requires no `u32` underflow; one `set_life` stores current - delta |
| Life.HealStaysInRange | src/game/life.rs:11 | healing a life within the maximum keeps it between its old value and the maximum; a heal of 0 changes nothing |
| Life.HealAtMaxUnchanged | src/game/life.rs:11 | healing at the maximum leaves the life there |
| Life.DamageThenHealRestores | src/game/life.rs:10-17 | damage then heal of the same amount restores a life within the maximum |
| Life.DamageIsExact | src/game/life.rs:15-17 | damage has no clamp: the life reaches 0 iff the whole life is dealt |
| Effects.Effect.Resolve | src/game/effect.rs:30-36 | a Heal effect raises the life toward current + nb but never past the maximum, ending at one of the two and never below a life within the maximum; a Damage effect lowers it by exactly nb; Move and Summon leave it alone |
| Effects.Effect.AffectTarget | src/game/effect.rs:30-36 | Heal and Damage apply exactly `heal(nb)` and `damage(nb)` to the target; Move and Summon are reported unsupported and leave it alone; the maximum never changes |
| Effects.HealEffectInRange | src/game/effect.rs:32 | a heal effect keeps a life within [current, max] |
| Effects.DamageThenHealEffects | src/game/effect.rs:32-33 | a damage effect then a heal effect of the same size restore the life |
| Players.Player.constructor | src/game/player.rs:14-23 | a new player has 100 of 100 hit points and 10 of 10 action points |
| Players.Player.PlayCard | src/game/player.rs:27-48 | an index past the unplayed pile, or a card costing more than the action points left, changes nothing; otherwise the cost is paid and the deck becomes `PlayAt(index)`; hit points and the maximum action points are never touched |
| Players.Deck.PlayAt | src/game/player.rs:43-44 | the card leaves the unplayed pile, the others keep their order, it is appended to the played pile, and the multiset of all cards is unchanged |
| Players.PlayConservesCardCount | src/game/player.rs:43-44 | playing a card keeps the total number of cards |
| Players.Player.UpdateHp | src/game/player.rs:51-53 | requires no `u32` overflow; adds the amount to the current hit points with no clamp, touching nothing else |
| TileNames.Formatted | src/main.rs:37-55 | what `format_digit` returns; `FormattedIsPaddedNumber` gives its meaning: "000" for 0, otherwise exactly `width` digits reading back as the number |
| TileNames.FormatDigit | src/main.rs:37-55 | returns `"000"` for 0; otherwise requires the digit count within the width and returns `Formatted`: width - count zeros, then the decimal form |
| TileNames.NumDigitsBounds | src/main.rs:42-47 | the count the loop computes brackets the number: 10^(count-1) <= n < 10^count |
| TileNames.BelowPowerHasFewDigits | src/main.rs:42-47 | a number below 10^k has at most k digits |
| TileNames.DecimalLength | src/main.rs:54 | the decimal form of a positive number has exactly as many characters as digits |
| TileNames.ParseDecimalString | src/main.rs:54 | reading the decimal form gives the number back |
| TileNames.ParseLeadingZeros | src/main.rs:49-54 | leading zeros do not change the value read |
| TileNames.FormattedIsPaddedNumber | src/main.rs:37-55 | the result is "000" for 0 and exactly `width` characters for a positive number; it is all digits and reads back as the number |
| TileNames.TileNamesAreThreeDigits | src/main.rs:80-81 | every tile index below 115 fits width 3 and gives a three-character name that reads back as the index |

`World::new` and `Effect::new` are the datatype constructors `GameWorld.World`
and `Effects.Effect`, which store their arguments unchanged.

## Left out

- src/game/ui.rs and src/game/keymapping.rs are not part of this model. They hold widgets, live keyboard and mouse input, and camera movement. The two game rules keymapping.rs gates (select when hovered; play when selected and the cell is in the map) are the hand and world operations above.
- Drawing, the hover animation of `display_card`, texture loading (`load_texture().await` in `play_card` is treated as doing nothing), `Camera2D::screen_to_world` and tiled-map loading are I/O or foreign calls. The animated scales and the cursor in world coordinates are parameters instead.
- `f32` rounding is not modelled: layout and transform values are exact reals. The transform constants are powers of two.
- `HasLife` is a capability any entity can implement. Here it is one class, `Life.LifeHolder`, whose two fields are what `get_life_current` and `get_life_max` return. `is_alive` has no default body in the source and is not modelled.
- The `Target` enum and `TargettedCardEffect` of src/game/effect.rs are declared but never used, and are not modelled.
- Hands.Hand.PlayCard: on an effect card the source removes the card and then panics at `todo!()`. The model reports `UnsupportedEffect` and leaves the hand as it was, since nothing after the panic is observable.
- Effects.Effect.AffectTarget: `Move` and `Summon` panic at `todo!()` in the source. The model reports `Unsupported` and leaves the target alone.
- Overflow and underflow are modelled as the debug build behaves: the operation requires that it does not happen. Release-mode wrap-around of `heal`, `damage`, `updateHp` and the `nb_displayed_digit - count` subtraction of `format_digit` is not modelled. (The subtraction in `playCard` is guarded and cannot wrap.)
- src/game/card.rs is a stale record that does not match the card types hand.rs uses. `Card`, `CreatureCard` and `DisplayedCard` are declared from their uses instead. A new displayed card starts at scale 1, the resting scale.
- src/game/player.rs does not compile as written. `Player::new` leaves out the two deck fields, and the model starts both empty. `reset_player` has an empty body and is not modelled. The refusal messages printed by `playCard` become the outcomes `InvalidIndex` and `InsufficientActionPoints`.
- src/game/isometric_manipulation.rs imports a `TILE_SIZE` constant that src/main.rs has commented out, so `Isometric` takes the tile size as a parameter.
- Of src/main.rs only `format_digit` and its call site are modelled. The frame loop, settings and asset loading are I/O.
