/** The damage arithmetic of src/combat.cpp: piercing, stealing, defences and the draining of a player. */
module CombatDamage {
  import opened Numbers

  // Amounts are unsigned 32-bit words, and where the source multiplies or adds words without
  // widening them the model wraps around with it.
  const WORD: nat := 0x1_0000_0000

  type Word = x: int | 0 <= x < WORD

  /** Health and mana of a creature are kept within the positive half of a signed word. */
  type Points = x: int | 0 <= x < 0x8000_0000

  /** The conversion of a signed operand to an unsigned one. */
  function ToWord(x: int): Word {
    x % WORD
  }

  /** percent of `amount` in words: the product may wrap. */
  function Scaled(amount: Word, percent: Word): (share: Word)
    ensures percent == 0 ==> share == 0
  {
    ProductIsNat(amount, percent);
    amount * percent % WORD / 100
  }

  /** The same plus a flat part, where the sum may wrap as well. */
  function WordShare(amount: Word, percent: Word, flat: Word): Word {
    (Scaled(amount, percent) + flat) % WORD
  }

  /** The same without a width. */
  function Share(amount: nat, percent: nat, flat: nat): nat {
    amount * percent / 100 + flat
  }

  /** The word share is the intended one exactly when neither the product nor the sum leaves the word. */
  lemma WordShareExact(amount: Word, percent: Word, flat: Word)
    ensures WordShare(amount, percent, flat) == Share(amount, percent, flat)
            <==> amount * percent < WORD && Share(amount, percent, flat) < WORD
  {
    ProductIsNat(amount, percent);
    WrapExact(amount * percent, flat);
  }

  lemma ProductIsNat(a: nat, b: nat)
    ensures a * b >= 0
  {
  }

  lemma WrapExact(product: nat, flat: Word)
    ensures (product % WORD / 100 + flat) % WORD == product / 100 + flat <==> product < WORD && product / 100 + flat < WORD
  {
  }

  /** Two percent of 2^31 wraps to nothing. */
  lemma WrappedShareVanishes()
    ensures WordShare(0x8000_0000, 2, 0) == 0 && Share(0x8000_0000, 2, 0) == 42949672
  {
  }

  // --------------------------------------------------------------------------------
  // Piercing
  // --------------------------------------------------------------------------------

  /** Splits off the part that ignores the victim's defences. */
  method PenetrateDamage(damage: Word, percent: Word, flat: Word) returns (piercing: Word, remaining: Word)
    ensures piercing + remaining == damage
    ensures piercing == Min(WordShare(damage, percent, flat), damage)
  {
    piercing := 0;
    if percent > 0 {
      piercing := Scaled(damage, percent);
    }
    if flat > 0 {
      piercing := (piercing + flat) % WORD;
    }
    piercing := if piercing > damage then damage else piercing;
    remaining := damage - piercing;
  }

  // --------------------------------------------------------------------------------
  // Stealing
  // --------------------------------------------------------------------------------

  datatype Stolen = Life | Mana | Stamina | Soul

  /** One of the four percent and flat pairs of LeechData, which are signed. */
  datatype Rate = Rate(percent: int, flat: int) {
    predicate Active() {
      percent > 0 || flat > 0
    }
  }

  datatype Leech = Leech(life: Rate, mana: Rate, stamina: Rate, soul: Rate)

  /** What a rate asks for, reckoned on the damage before any stealing. */
  function Claim(total: Word, rate: Rate): Word {
    if rate.Active() then WordShare(total, ToWord(rate.percent), ToWord(rate.flat)) else 0
  }

  /**
   A rate claims nothing without a positive part, and else its percentage of the whole damage plus its flat part,
   while the product fits a word. A flat part that takes off more than the percentage comes back from the top.
   */
  lemma ClaimExactly(total: Word, percent: int, flat: int, product: int)
    requires -0x8000_0000 <= flat < 0x8000_0000 && percent < 0x8000_0000 && product == total * percent
    ensures percent <= 0 && flat <= 0 ==> Claim(total, Rate(percent, flat)) == 0
    ensures 0 <= percent && 0 <= product < 0x1_0000_0000 && (percent > 0 || flat > 0) ==>
              Claim(total, Rate(percent, flat)) == ToWord(product / 100 + flat)
    ensures ToWord(flat) == if flat < 0 then flat + 0x1_0000_0000 else flat
  {
    if 0 <= percent && 0 <= product < 0x1_0000_0000 && (percent > 0 || flat > 0) {
      assert ToWord(percent) == percent;
      assert Scaled(total, ToWord(percent)) == product / 100 by {
        SmallProduct(product);
      }
      AddedFlat(product / 100, flat);
    }
  }

  lemma SmallProduct(product: nat)
    requires product < WORD
    ensures product % WORD / 100 == product / 100
  {
  }

  lemma AddedFlat(share: int, flat: int)
    ensures (share + flat % WORD) % WORD == (share + flat) % WORD
  {
  }

  datatype Theft = Theft(kind: Stolen, amount: nat)

  function Sum(thefts: seq<Theft>): nat {
    if thefts == [] then 0 else Sum(thefts[..|thefts| - 1]) + thefts[|thefts| - 1].amount
  }

  lemma SumOneMore(thefts: seq<Theft>, theft: Theft)
    ensures Sum(thefts + [theft]) == Sum(thefts) + theft.amount
  {
    assert (thefts + [theft])[..|thefts|] == thefts;
  }

  /** The thief strikes for what is claimed or for what is left, and not at all for nothing claimed. */
  method Steal(total: Word, rate: Rate, kind: Stolen, damage: Word, thefts: seq<Theft>)
    returns (remaining: Word, thefts': seq<Theft>)
    ensures remaining == damage - Min(Claim(total, rate), damage)
    ensures thefts' == if Claim(total, rate) == 0 then thefts
                       else thefts + [Theft(kind, Min(Claim(total, rate), damage))]
    ensures remaining + Sum(thefts') == damage + Sum(thefts)
  {
    remaining, thefts' := damage, thefts;
    var claim := Reckon(total, rate);
    if claim != 0 {
      var stolen := Min(claim, remaining);
      remaining := remaining - stolen;
      SumOneMore(thefts, Theft(kind, stolen));
      thefts' := thefts' + [Theft(kind, stolen)];
    }
  }

  method Reckon(total: Word, rate: Rate) returns (claim: Word)
    ensures claim == Claim(total, rate)
  {
    claim := 0;
    if rate.percent > 0 || rate.flat > 0 {
      if rate.percent != 0 {
        claim := Scaled(total, ToWord(rate.percent));
      }
      if rate.flat != 0 {
        claim := (claim + ToWord(rate.flat)) % WORD;
      }
    }
  }

  /**
   Splits the damage exactly into the thefts and the rest. What is stolen in all is the sum of the
   claims, capped by the damage, whatever the order of the claims.
   */
  method ProcessSteal(damage: Word, leech: Leech) returns (remaining: Word, thefts: seq<Theft>)
    ensures remaining + Sum(thefts) == damage
    ensures Sum(thefts) == Min(Claim(damage, leech.life) + Claim(damage, leech.mana)
                               + Claim(damage, leech.stamina) + Claim(damage, leech.soul), damage)
  {
    remaining, thefts := Steal(damage, leech.life, Life, damage, []);
    remaining, thefts := Steal(damage, leech.mana, Mana, remaining, thefts);
    remaining, thefts := Steal(damage, leech.stamina, Stamina, remaining, thefts);
    remaining, thefts := Steal(damage, leech.soul, Soul, remaining, thefts);
  }

  // --------------------------------------------------------------------------------
  // The victim's defences
  // --------------------------------------------------------------------------------

  datatype Defence = Defence(percent: Word, flat: Word) {
    predicate Active() {
      percent != 0 || flat != 0
    }
  }

  datatype Defences = Defences(weakness: Defence, resist: Defence, absorb: Defence, restore: Defence, replenish: Defence,
                               revive: Defence, reflect: Defence, deflect: Defence, ricochet: Defence)

  /** What each defence took off the damage. */
  datatype Parts = Parts(absorbed: nat, restored: nat, replenished: nat, revived: nat, reflected: nat, deflected: nat,
                         ricocheted: nat)
  {
    function Total(): nat {
      absorbed + restored + replenished + revived + reflected + deflected + ricocheted
    }
  }

  /** percent of `amount` in double words, which hold the product. */
  function Percent(amount: Word, percent: Word): (part: nat)
    ensures percent == 0 ==> part == 0
  {
    ProductIsNat(amount, percent);
    amount * percent / 100
  }

  function Cut(amount: Word, d: Defence): (cut: Word)
    ensures cut <= amount
    ensures !d.Active() ==> cut == 0
  {
    Min(Percent(amount, d.percent) + d.flat, amount)
  }

  /** A cut is the whole percents of the amount plus the flat part, and never more than the amount. */
  lemma CutExactly(amount: Word, d: Defence) returns (percents: nat)
    ensures 100 * percents <= amount * d.percent < 100 * percents + 100
    ensures Cut(amount, d) == if percents + d.flat < amount then percents + d.flat else amount
  {
    ProductIsNat(amount, d.percent);
    percents := Percent(amount, d.percent);
    WholePercents(amount * d.percent);
  }

  lemma WholePercents(product: nat)
    ensures 100 * (product / 100) <= product < 100 * (product / 100) + 100
  {
  }

  /** The percent part of a weakness saturates at the largest word. */
  function Raised(damage: Word, percent: Word): (raised: Word)
    ensures raised >= damage
  {
    Min(damage + Percent(damage, percent), WORD - 1)
  }

  /** The flat part wraps around. */
  function Weakened(damage: Word, d: Defence): Word {
    (Raised(damage, d.percent) + d.flat) % WORD
  }

  /** So a flat weakness adds to the damage exactly when it does not wrap; when it does, it softens the blow. */
  lemma WeaknessAdds(damage: Word, d: Defence)
    ensures Weakened(damage, d) >= Raised(damage, d.percent) <==> Raised(damage, d.percent) + d.flat < WORD
  {
  }

  /** The percent part of a weakness adds whole percents, as far as a word goes, and the flat part wraps. */
  lemma WeakenedExactly(damage: Word, d: Defence) returns (percents: nat)
    ensures 100 * percents <= damage * d.percent < 100 * percents + 100
    ensures Weakened(damage, d) == (if damage + percents < 0x1_0000_0000 then damage + percents + d.flat
                                    else 0xFFFF_FFFF + d.flat) % 0x1_0000_0000
  {
    ProductIsNat(damage, d.percent);
    percents := Percent(damage, d.percent);
    WholePercents(damage * d.percent);
  }

  function Resisted(damage: Word, d: Defence): (left: Word)
    ensures left <= damage
  {
    var left := damage - Cut(damage, Defence(d.percent, 0));
    left - Min(d.flat, left)
  }

  /** A resistance takes its whole percents first and its flat part off the rest, and stops at nothing. */
  lemma ResistedExactly(damage: Word, d: Defence) returns (percents: nat)
    ensures 100 * percents <= damage * d.percent < 100 * percents + 100
    ensures Resisted(damage, d) == if percents + d.flat < damage then damage - percents - d.flat else 0
  {
    percents := CutExactly(damage, Defence(d.percent, 0));
  }

  method Weaken(damage: Word, d: Defence) returns (raised: Word)
    ensures raised == Weakened(damage, d)
  {
    raised := damage;
    if d.percent != 0 {
      raised := Raised(damage, d.percent);
    }
    if d.flat != 0 {
      raised := (raised + d.flat) % WORD;
    }
  }

  method Resist(damage: Word, d: Defence) returns (left: Word)
    ensures left == Resisted(damage, d)
  {
    left := damage;
    if d.percent != 0 {
      left := left - Cut(left, Defence(d.percent, 0));
    }
    if d.flat != 0 {
      left := if d.flat >= left then 0 else left - d.flat;
    }
  }

  method Deduct(damage: Word, d: Defence, applies: bool) returns (part: Word, remaining: Word)
    ensures part == (if applies then Cut(damage, d) else 0) && remaining == damage - part
  {
    part, remaining := 0, damage;
    if applies && (d.percent != 0 || d.flat != 0) {
      part := Cut(damage, d);
      remaining := damage - part;
    }
  }

  /**
   After weakness and resist, the damage is split exactly into what the defences take and the rest.
   A bounced blow is never bounced again, and a blow without attacker is not reflected. The open
   positions that a ricochet needs are an input: without one it takes nothing. Each of the others takes
   its cut of what the ones before it let through.
   */
  method DefenseAugment(damage: Word, ds: Defences, bounced: bool, attacked: bool, openPosition: bool)
    returns (remaining: Word, parts: Parts)
    ensures parts.Total() + remaining == Resisted(Weakened(damage, ds.weakness), ds.resist)
    ensures var whole := Resisted(Weakened(damage, ds.weakness), ds.resist);
            && parts.absorbed == Cut(whole, ds.absorb)
            && parts.restored == Cut(whole - parts.absorbed, ds.restore)
            && parts.replenished == Cut(whole - parts.absorbed - parts.restored, ds.replenish)
            && parts.revived == Cut(whole - parts.absorbed - parts.restored - parts.replenished, ds.revive)
    ensures !bounced && attacked ==> parts.reflected == Cut(remaining + parts.ricocheted + parts.deflected + parts.reflected, ds.reflect)
    ensures !bounced ==> parts.deflected == Cut(remaining + parts.ricocheted + parts.deflected, ds.deflect)
    ensures !bounced && openPosition ==> parts.ricocheted == Cut(remaining + parts.ricocheted, ds.ricochet)
    ensures bounced ==> parts.reflected == 0 && parts.deflected == 0 && parts.ricocheted == 0
    ensures !attacked ==> parts.reflected == 0
    ensures !openPosition ==> parts.ricocheted == 0
  {
    remaining := Weaken(damage, ds.weakness);
    remaining := Resist(remaining, ds.resist);
    var absorbed, restored, replenished, revived, reflected, deflected, ricocheted;
    absorbed, remaining := Deduct(remaining, ds.absorb, true);
    restored, remaining := Deduct(remaining, ds.restore, true);
    replenished, remaining := Deduct(remaining, ds.replenish, true);
    revived, remaining := Deduct(remaining, ds.revive, true);
    reflected, remaining := Deduct(remaining, ds.reflect, !bounced && attacked);
    deflected, remaining := Deduct(remaining, ds.deflect, !bounced);
    ricocheted, remaining := Deduct(remaining, ds.ricochet, !bounced && openPosition);
    parts := Parts(absorbed, restored, replenished, revived, reflected, deflected, ricocheted);
  }

  // --------------------------------------------------------------------------------
  // Draining a player
  // --------------------------------------------------------------------------------

  class Player {
    var health: Points
    var mana: Points
    const infiniteMana: bool
    const undying: bool

    constructor (health: Points, mana: Points, infiniteMana: bool, undying: bool)
      ensures this.health == health && this.mana == mana
      ensures this.infiniteMana == infiniteMana && this.undying == undying
    {
      this.health, this.mana, this.infiniteMana, this.undying := health, mana, infiniteMana, undying;
    }

    method DrainMana(loss: Points)
      modifies this`mana
      ensures mana == if infiniteMana then old(mana) else old(mana) - Min(loss, old(mana))
    {
      if !infiniteMana {
        mana := if mana - loss < 0 then 0 else mana - loss;
      }
    }

    /** A zone without death keeps the last point of health. */
    method DrainHealth(loss: Points)
      modifies this`health
      ensures health == if undying && loss >= old(health) then 1 else old(health) - Min(loss, old(health))
    {
      health := if health - loss < 0 then 0 else health - loss;
      if health <= 0 && undying {
        health := 1;
      }
    }

    /**
     Mana goes first where the damage drains it or a shield stands in for the health. Barring a veto of the
     death, what arrives is exactly the mana drained, the health drained and the overkill, and there is
     overkill only beyond all the points in reach. A veto keeps the health, not the mana that a shield has
     given already, and reports nothing dealt.
     */
    method ApplyDamage(damage: Word, manaDrain: bool, manaShield: bool, vetoed: bool)
      returns (dealt: Word, ghost manaLoss: nat, ghost healthLoss: nat)
      modifies this`health, this`mana
      ensures manaLoss == if manaDrain || manaShield then Min(damage, old(mana)) else 0
      ensures mana == if infiniteMana then old(mana) else old(mana) - manaLoss
      ensures var lethal := !manaDrain && damage > manaLoss && damage - manaLoss >= old(health);
              if vetoed && lethal then dealt == 0 && healthLoss == 0 && health == old(health)
              else
                && dealt == Min(damage, if manaDrain then old(mana) else if manaShield then old(mana) + old(health) else old(health))
                && dealt == manaLoss + healthLoss
                && health == if manaDrain || damage == manaLoss then old(health)
                             else if undying && healthLoss >= old(health) then 1 else old(health) - healthLoss
    {
      manaLoss, healthLoss, dealt := 0, 0, 0;
      var limit := if manaDrain then mana else if manaShield then mana + health else health;
      if manaDrain || manaShield {
        dealt := Min(damage, mana);
        manaLoss := dealt;
        DrainMana(dealt);
        if manaDrain || dealt == damage {
          return;
        }
      }
      limit := limit - dealt;
      if damage > dealt {
        var changed := Min(damage - dealt, limit);
        if changed == health && vetoed {
          dealt := 0;
          return;
        }
        dealt := dealt + changed;
        healthLoss := changed;
        DrainHealth(changed);
      }
    }
  }
}
