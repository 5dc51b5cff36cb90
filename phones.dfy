/** The phone classes: a smartphone whose battery life is charged up and,
    for the gaming edition, drained by playing. `GamingSmartphone` adds one
    field and two methods to `Smartphone`; here both are one class, and the
    cooling system is present exactly for the gaming edition. */
module Phones {
  import opened Wrappers
  import opened Text

  class Smartphone {
    var brand: string
    var model: string
    var batteryLife: int
    var coolingSystem: Option<string>

    /** Built by the gaming-edition constructor. */
    predicate IsGaming()
      reads this
    {
      coolingSystem.Some?
    }

    /** "<brand> <model>", the way every message names the phone. */
    function Name(): string
      reads this
    {
      brand + " " + model
    }

    constructor (brand: string, model: string, batteryLife: int)
      ensures this.brand == brand && this.model == model && this.batteryLife == batteryLife
      ensures !IsGaming()
    {
      this.brand := brand;
      this.model := model;
      this.batteryLife := batteryLife;
      this.coolingSystem := None;
    }

    /** `GamingSmartphone.__init__`: the base fields, then the cooling system. */
    constructor Gaming(brand: string, model: string, batteryLife: int, coolingSystem: string)
      ensures this.brand == brand && this.model == model && this.batteryLife == batteryLife
      ensures this.coolingSystem == Some(coolingSystem)
    {
      this.brand := brand;
      this.model := model;
      this.batteryLife := batteryLife;
      this.coolingSystem := Some(coolingSystem);
    }

    /** Changes nothing; the message names the phone and the contact. */
    method Call(contact: string) returns (msg: string)
      ensures msg == Name() + " is calling " + contact + "..."
    {
      msg := Name() + " is calling " + contact + "...";
    }

    /** Adds `hours` to the battery life (no upper bound) and reports the
        new value. */
    method Charge(hours: int) returns (msg: string)
      modifies this
      ensures batteryLife == old(batteryLife) + hours
      ensures brand == old(brand) && model == old(model) && coolingSystem == old(coolingSystem)
      ensures msg == Name() + " charged. Battery life: " + IntToString(batteryLife) + " hours."
    {
      batteryLife := batteryLife + hours;
      msg := Name() + " charged. Battery life: " + IntToString(batteryLife) + " hours.";
    }

    /** Gaming edition only: two hours of battery per hour played, with no
        lower bound, so the battery life can go negative. */
    method PlayGame(game: string, hours: int) returns (msg: string)
      requires IsGaming()
      modifies this
      ensures batteryLife == old(batteryLife) - 2 * hours
      ensures brand == old(brand) && model == old(model) && coolingSystem == old(coolingSystem)
      ensures msg == "Playing " + game + " for " + IntToString(hours) + " hours... Battery left: " +
                     IntToString(batteryLife) + " hrs."
    {
      batteryLife := batteryLife - hours * 2;
      msg := "Playing " + game + " for " + IntToString(hours) + " hours... Battery left: " +
             IntToString(batteryLife) + " hrs.";
    }

    /** `__str__`, overridden by the gaming edition: it starts with the
        phone's name and ends with the current battery life in hours. */
    function ToString(): (s: string)
      reads this
      ensures |Name()| <= |s| && s[..|Name()|] == Name()
      ensures var b := IntToString(batteryLife) + " hrs";
        if IsGaming() then |b| <= |s| && s[|s| - |b|..] == b
        else |b| + 1 <= |s| && s[|s| - |b| - 1..] == b + ")"
    {
      var battery := IntToString(batteryLife) + " hrs";
      if IsGaming() then
        var head := Name() + " [Gaming Edition] - Cooling: " + coolingSystem.value + ", Battery: ";
        assert (head + battery)[..|Name()|] == Name();
        head + battery
      else
        var head := Name() + " (Battery: ";
        assert (head + battery + ")")[..|Name()|] == Name();
        head + battery + ")"
    }
  }

  /** Charging for some hours and then playing for as many costs exactly
      those hours of battery life and leaves the other fields alone. */
  method ChargeThenPlay(phone: Smartphone, game: string, hours: int)
    requires phone.IsGaming()
    modifies phone
    ensures phone.batteryLife == old(phone.batteryLife) - hours
    ensures phone.brand == old(phone.brand) && phone.model == old(phone.model)
    ensures phone.coolingSystem == old(phone.coolingSystem)
  {
    var _ := phone.Charge(hours);
    var _ := phone.PlayGame(game, hours);
  }

  /** Playing for more than half the remaining battery life leaves it
      negative. */
  method PlayPastEmpty(phone: Smartphone, game: string, hours: int)
    requires phone.IsGaming() && phone.batteryLife < 2 * hours
    modifies phone
    ensures phone.batteryLife < 0
  {
    var _ := phone.PlayGame(game, hours);
  }
}
