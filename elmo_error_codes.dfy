/**
 * Elmo drive error codes (ElmoErrorCodes): a table of 246 slots, some of
 * them without a text, looked up by error code.
 */
module ElmoErrorCodes {
  import opened Wrappers

  /** The number of slots in the table. */
  const TableLength: int := 246

  /** The slot for error code ec: its text, or nothing for a code without one; only table slots have one. */
  function Slot(ec: int): (r: Option<string>)
    ensures r.Some? ==> 0 <= ec < TableLength
  {
    if ec < 25 then Slots0To24(ec)
    else if ec < 50 then Slots25To49(ec)
    else if ec < 75 then Slots50To74(ec)
    else if ec < 100 then Slots75To99(ec)
    else if ec < 125 then Slots100To124(ec)
    else if ec < 150 then Slots125To149(ec)
    else if ec < 175 then Slots150To174(ec)
    else if ec < 200 then Slots175To199(ec)
    else if ec < 225 then Slots200To224(ec)
    else Slots225To245(ec)
  }

  // The table in blocks of 25 slots.

  function Slots0To24(ec: int): (r: Option<string>)
    ensures r.Some? ==> 0 <= ec < 25
  {
    match ec
    case 0 => Some("No error")
    case 1 => Some("Do not Update")
    case 2 => Some("Bad Command")
    case 3 => Some("Bad Index")
    case 4 => Some("PAL does not support this sensor")
    case 7 => Some("Mode cannot be started - bad initialization data")
    case 9 => Some("CAN message HW buffer was overrun")
    case 10 => Some("Cannot be used by PDO")
    case 11 => Some("Cannot write to flash memory")
    case 13 => Some("Cannot reset communication - UART is busy")
    case 16 => Some("Array '[ ]' is expected, or empty expression in array")
    case 17 => Some("Format of UL command is not valid - check the command definition")
    case 19 => Some("Command syntax error")
    case 20 => Some("Bad Set Point sending order")
    case 21 => Some("Operand Out of Range")
    case 23 => Some("Command cannot be assigned")
    case _ => None
  }

  function Slots25To49(ec: int): (r: Option<string>)
    ensures r.Some? ==> 25 <= ec < 50
  {
    match ec
    case 26 => Some("Profiler mode not supported in this unit mode (UM)")
    case 27 => Some("Bad ECAM setting")
    case 28 => Some("Out Of Limit Range")
    case 33 => Some("Bad sensor setting")
    case 34 => Some("There is a conflict with another command")
    case 35 => Some("Max bus voltage (BV) or max current (MC) is not valid")
    case 36 => Some("Commutation method (CA[17]) or commutation table does not fit to sensor")
    case 37 => Some("Two Or More Hall sensors are defined to the same place")
    case 38 => Some("PORT C setting is incorrect")
    case 40 => Some("In Wizard Experiment!")
    case 42 => Some("No Such Label")
    case 45 => Some("An Attempt to read a write only command")
    case 47 => Some("Program does not exist or not Compiled")
    case 48 => Some("Motor cold not start - fault reason in CD")
    case _ => None
  }

  function Slots50To74(ec: int): (r: Option<string>)
    ensures r.Some? ==> 50 <= ec < 75
  {
    match ec
    case 51 => Some("Inhibit OR Abort inputs are active, Cannot start motor")
    case 54 => Some("Bad Data Base")
    case 57 => Some("Motor Must be Off")
    case 58 => Some("Motor Must be On")
    case 60 => Some("Bad Unit Mode")
    case 61 => Some("Data Base Reset")
    case 62 => Some("Socket change not allowed")
    case 67 => Some("Recorder Is Busy")
    case 68 => Some("Required profiler mode is not supported")
    case 69 => Some("Recorder Usage Error")
    case 70 => Some("Recorder data Invalid")
    case 71 => Some("Homing is busy")
    case 74 => Some("Bad profile database, see 0x2081 for object number (EE[2])")
    case _ => None
  }

  function Slots75To99(ec: int): (r: Option<string>)
    ensures r.Some? ==> 75 <= ec < 100
  {
    match ec
    case 75 => Some("Download is in progress")
    case 76 => Some("Error mapping is not allowed")
    case 78 => Some("Out of Program Range")
    case 79 => Some("Sensor setting error")
    case 81 => Some("Download failed see specific error in EE[3]")
    case 82 => Some("Program Is Running")
    case 83 => Some("Command is not permitted in a program.")
    case 85 => Some("STO is not active")
    case 87 => Some("Hall sensed with illegal value")
    case 94 => Some("Not allowed while Error mapping")
    case 97 => Some("RS232 receive buffer overflow")
    case 98 => Some("Cannot measure current offsets")
    case 99 => Some("The sensor does not support this command")
    case _ => None
  }

  function Slots100To124(ec: int): (r: Option<string>)
    ensures r.Some? ==> 100 <= ec < 125
  {
    match ec
    case 100 => Some("The requested PWM value is not supported")
    case 101 => Some("Absolute encoder setting problem")
    case 102 => Some("Output Compare is busy")
    case 103 => Some("Output Compare Sensor Is Not QUAD Encoder")
    case 104 => Some("Output Compare Table Length OR Data")
    case 105 => Some("Speed loop KP out of range")
    case 107 => Some("Encoder emulation parameter is out of range")
    case 108 => Some("Encoder emulation in progress")
    case 110 => Some("Too long number")
    case 122 => Some("Motion mode is not supported or with initialization conflict")
    case 123 => Some("Profiler queue is full")
    case _ => None
  }

  function Slots125To149(ec: int): (r: Option<string>)
    ensures r.Some? ==> 125 <= ec < 150
  {
    match ec
    case 125 => Some("Personality not loaded")
    case 126 => Some("User Program failed - variable out of program size")
    case 128 => Some("Bad variable index in database")
    case 129 => Some("Variable is not an array")
    case 130 => Some("Variable name does not exist")
    case 131 => Some("Cannot record local variable")
    case 132 => Some("Variable is an array")
    case 133 => Some("Number of function input arguments is not as expected")
    case 134 => Some("Cannot run local label/function with the XQ command")
    case 135 => Some("Frequency identification failed")
    case 136 => Some("Not a number")
    case 138 => Some("Position Interpolation buffer underflow")
    case 139 => Some("The number of break points exceeds maximal number")
    case 140 => Some("An attempt to set/clear break point at the not relevant line")
    case 142 => Some("Checksum of data is not correct")
    case 144 => Some("Numeric Stack underflow")
    case 145 => Some("Numeric stack overflow")
    case 147 => Some("Executable command within math expression")
    case 148 => Some("Nothing in the expression")
    case _ => None
  }

  function Slots150To174(ec: int): (r: Option<string>)
    ensures r.Some? ==> 150 <= ec < 175
  {
    match ec
    case 151 => Some("Parentheses mismatch")
    case 152 => Some("Bad operand type")
    case 153 => Some("Overflow in a numeric operator")
    case 154 => Some("Address is out of data memory segment")
    case 155 => Some("Beyond stack range")
    case 156 => Some("Bad op-code")
    case 158 => Some("Out of flash memory range")
    case 159 => Some("Flash memory verification error")
    case 161 => Some("Program is not halted")
    case 163 => Some("Not enough space in program data segment")
    case 165 => Some("An attempt to access flash memory while busy")
    case 166 => Some("Out Of Modulo Range")
    case 168 => Some("Speed too large to start motor")
    case 169 => Some("Time out using peripheral.(overflow or busy)")
    case 170 => Some("Cannot erase sector in flash memory")
    case 171 => Some("Cannot read from flash memory")
    case 172 => Some("Cannot write to flash memory")
    case 173 => Some("Executable area of program is too large")
    case 174 => Some("Program has not been loaded")
    case _ => None
  }

  function Slots175To199(ec: int): (r: Option<string>)
    ensures r.Some? ==> 175 <= ec < 200
  {
    match ec
    case 175 => Some("Cannot write program checksum - clear program (CP)")
    case 176 => Some("User code, variables and functions are too large")
    case 177 => Some("Capture/Compare conversion error in analog encoder. Require known quad location")
    case 178 => Some("CAN bus off")
    case 179 => Some("Consumer HB event")
    case 180 => Some("DF is not supported in this communication type")
    case 181 => Some("Writing to Flash program area, failed")
    case 182 => Some("PAL Burn Is In Process or no PAL is burned")
    case 184 => Some("Capture option already used by other operation")
    case 185 => Some("This element may be modified only when interpolation is not active")
    case 186 => Some("Interpolation queue is full")
    case 187 => Some("Incorrect Interpolation sub-mode")
    case 188 => Some("Gantry slave is disabled")
    case 189 => Some("CAN message was lost, software buffer overflow")
    case _ => None
  }

  function Slots200To224(ec: int): (r: Option<string>)
    ensures r.Some? ==> 200 <= ec < 225
  {
    match ec
    case 200 => Some("Main Feedback error refer to: EE[1]")
    case 201 => Some("Commutation sequence failed")
    case 202 => Some("Encoder - Hall sensor mismatch refer to: XP[7]")
    case 203 => Some("Current limit was exceeded")
    case 204 => Some("External inhibit input detected")
    case 205 => Some("AC Fail: loss of phase")
    case 206 => Some("Digital Hall run too fast or disconnected")
    case 207 => Some("Speed error limit exceeded refer to: ER[2]")
    case 208 => Some("Position error limit exceeded value of ER[3]")
    case 209 => Some("Cannot start motor because of bad database refer to: CD")
    case 210 => Some("Bad ECAM table")
    case 216 => Some("Cannot find zero position without DHalls")
    case 217 => Some("Over Speed violation refer to: HL[2]")
    case 221 => Some("Motor stuck")
    case 222 => Some("Out of position limits refer to: HL[3] or LL[3]")
    case 223 => Some("Numerical overflow")
    case 224 => Some("Gantry slave is not enabled")
    case _ => None
  }

  function Slots225To245(ec: int): (r: Option<string>)
    ensures r.Some? ==> 225 <= ec < 246
  {
    match ec
    case 229 => Some("Cannot start motor because of internal problem")
    case 233 => Some("Under voltage protection")
    case 235 => Some("Overvoltage protection")
    case 237 => Some("Safety switch")
    case 241 => Some("Short protection")
    case 243 => Some("Over temperature protection")
    case _ => None
  }

  /**
   * errorCodeToString: nothing for a code outside the table, otherwise the
   * slot's text, which is nothing for a code without one.
   */
  function ErrorCodeToString(ec: int): (r: Option<string>)
    ensures ec < 0 || ec >= TableLength ==> r.None?
    ensures 0 <= ec < TableLength ==> r == Slot(ec)
  {
    if ec < 0 || ec >= TableLength then None else Slot(ec)
  }

  /** Worked example, not a general property: spot values of the table: code 0 is "No error", code 5 has no text, 243 is the last text. */
  lemma ErrorCodeExamples()
    ensures ErrorCodeToString(0) == Some("No error")
    ensures ErrorCodeToString(5) == None
    ensures ErrorCodeToString(243) == Some("Over temperature protection")
    ensures ErrorCodeToString(246) == None && ErrorCodeToString(-1) == None
  {
  }
}
