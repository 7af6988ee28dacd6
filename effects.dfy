/**
 * What the tasks do to the world, as a trace of effects: label writes and
 * other LVGL calls, backlight duty changes, SD-card file accesses, radio
 * stack calls, sensor reads and delays. Every blocking call's RESULT is an
 * input of the task that makes it; the call itself is an effect.
 */
module Effects {

  /** The labels of the generated UI that the tasks write (`screen_label_4` .. `screen_label_8`). */
  datatype Label = ScreenLabel4 | ScreenLabel5 | ScreenLabel6 | ScreenLabel7 | ScreenLabel8

  /** An IMU reading (`ImuDate_t`); its `float` members are kept as opaque reals. */
  datatype ImuSample = ImuSample(accX: real, accY: real, accZ: real, gyroX: real, gyroY: real, gyroZ: real)

  /**
   * The text handed to `lv_label_set_text`. Integer text is rendered
   * character by character; the `%.2f` renderings of float readings are
   * kept as opaque constructors that record which format and which reading.
   */
  datatype Text =
    | Str(s: string)
    | AccText(imu: ImuSample)     // "acc : \n%.2fg \n%.2fg \n%.2fg"
    | GyroText(imu: ImuSample)    // "gyro : \n%.2fdps \n%.2fdps \n%.2fdps"
    | VbatText(volts: real)       // "vbat : %.2fV"

  /** `LCD_PWM_MODE_0` and `LCD_PWM_MODE_255` of the backlight driver. */
  datatype PwmMode = PwmMode0 | PwmMode255

  /** The LVGL objects whose flags the tasks change. */
  datatype UiObject = Carousel | Img1 | Img2 | Img3 | ImgContainer

  /** `LV_OBJ_FLAG_HIDDEN` and `LV_OBJ_FLAG_SCROLLABLE`. */
  datatype UiFlag = Hidden | Scrollable

  datatype Effect =
    // user interface
    | SetLabel(field: Label, text: Text)
    | AddFlag(obj: UiObject, flag: UiFlag)
    | ClearFlag(obj: UiObject, flag: UiFlag)
    | ScrollBy(obj: UiObject, dx: int, dy: int, animate: bool)
    | MoveForeground(obj: UiObject)
    | ContainerCreate
    | ContainerClean
    | ImageCreate
    | ImageSetSource(src: string)
    | LogImageNotFound(path: string)
    // backlight and storage
    | SetDuty(mode: PwmMode)
    | FileWrite(path: string, data: string)
    | FileRead(path: string)
    // radios
    | WifiDeinit
    | BleScanPrepare
    | BleStackInit
    | BleScanStart
    | QueueReceive(received: bool)
    | BleStackDeinit
    // sensors and time
    | RtcGet
    | ImuGet
    | AdcGet
    | Delay(ms: nat)
}
